/**
  Copying between two lists of buffers that are fragmented in different ways. A buffer is
  a range of addresses in one memory; a copy reads and writes that memory in place.
 */
module BufferCopy {
  import opened Sequences
  import Words

  const SIZE_MAX: nat := 0xFFFF_FFFF_FFFF_FFFF

  datatype Buffer = Buffer(data: nat, size: nat) {

    /** The buffer without its first `n` bytes. */
    function Plus(n: nat): Buffer {
      var offset := if n < size then n else size;
      Buffer(data + offset, size - offset)
    }

    /** The first `max` bytes of the buffer. */
    function Clip(max: nat): Buffer {
      Buffer(data, if size < max then size else max)
    }

    predicate In(length: nat) { data + size <= length }

    predicate Contains(address: nat) { data <= address < data + size }

    predicate Apart(other: Buffer) {
      size == 0 || other.size == 0 || data + size <= other.data || other.data + other.size <= data
    }
  }

  // ---------------------------------------------------------------- the specification

  function Size(buffers: seq<Buffer>): nat {
    if buffers == [] then 0 else buffers[0].size + Size(buffers[1..])
  }

  predicate AllIn(buffers: seq<Buffer>, length: nat) {
    forall i | 0 <= i < |buffers| :: buffers[i].In(length)
  }

  predicate AllApart(a: Buffer, buffers: seq<Buffer>) {
    forall i | 0 <= i < |buffers| :: a.Apart(buffers[i])
  }

  /** No two buffers of the list overlap. */
  predicate Separate(buffers: seq<Buffer>) {
    buffers == [] || (AllApart(buffers[0], buffers[1..]) && Separate(buffers[1..]))
  }

  predicate ListsApart(xs: seq<Buffer>, ys: seq<Buffer>) {
    forall i | 0 <= i < |xs| :: AllApart(xs[i], ys)
  }

  /** No buffer of the list reaches the address. */
  predicate Outside(buffers: seq<Buffer>, address: nat) {
    forall i | 0 <= i < |buffers| :: !buffers[i].Contains(address)
  }

  function Bytes<T>(m: seq<T>, b: Buffer): seq<T>
    requires b.In(|m|)
  {
    m[b.data..b.data + b.size]
  }

  /** The bytes of the buffers, one after the other. */
  function Gather<T>(m: seq<T>, buffers: seq<Buffer>): (r: seq<T>)
    requires AllIn(buffers, |m|)
    ensures |r| == Size(buffers)
  {
    if buffers == [] then []
    else Bytes(m, buffers[0]) + Gather(m, buffers[1..])
  }

  /** The memory with `bytes` written over the buffers, one after the other. */
  function Scatter<T>(m: seq<T>, buffers: seq<Buffer>, bytes: seq<T>): (r: seq<T>)
    requires AllIn(buffers, |m|)
    ensures |r| == |m|
    decreases |buffers|
  {
    if buffers == [] then m
    else
      var n := Min(buffers[0].size, |bytes|);
      Scatter(Splice(m, buffers[0].data, bytes[..n]), buffers[1..], bytes[n..])
  }

  /** As many bytes as both lists have, and no more than the limit: the most that respects all
      three. */
  function CopyCount(target: seq<Buffer>, source: seq<Buffer>, limit: Option<nat>): (n: nat)
    ensures n <= Size(target) && n <= Size(source) && (limit.Some? ==> n <= limit.value)
    ensures n == Size(target) || n == Size(source) || limit == Some(n)
  {
    var n := Min(Size(target), Size(source));
    if limit.Some? then Min(n, limit.value) else n
  }

  /** `n` bytes of `source` have been copied to `target`, and nothing else has changed. */
  ghost predicate CopiedTo<T>(before: seq<T>, after: seq<T>, target: seq<Buffer>, source: seq<Buffer>, n: nat) {
    && AllIn(target, |before|) && AllIn(source, |before|) && n <= Size(source)
    && after == Scatter(before, target, Gather(before, source)[..n])
  }

  // ---------------------------------------------------------------- laws of the specification

  lemma {:induction false} ScatterNothing<T>(m: seq<T>, buffers: seq<Buffer>)
    requires AllIn(buffers, |m|)
    ensures Scatter(m, buffers, []) == m
    decreases |buffers|
  {
    if buffers != [] {
      SpliceNothing(m, buffers[0].data);
      ScatterNothing(m, buffers[1..]);
    }
  }

  /** Outside the buffers nothing changes. */
  lemma {:induction false} ScatterFrame<T>(m: seq<T>, buffers: seq<Buffer>, bytes: seq<T>, a: nat)
    requires AllIn(buffers, |m|) && a < |m|
    requires Outside(buffers, a)
    ensures Scatter(m, buffers, bytes)[a] == m[a]
    decreases |buffers|
  {
    if buffers != [] {
      var n := Min(buffers[0].size, |bytes|);
      ScatterFrame(Splice(m, buffers[0].data, bytes[..n]), buffers[1..], bytes[n..], a);
    }
  }

  lemma {:induction false} ScatterFrameRange<T>(m: seq<T>, buffers: seq<Buffer>, bytes: seq<T>, b: Buffer)
    requires AllIn(buffers, |m|) && b.In(|m|) && AllApart(b, buffers)
    ensures Bytes(Scatter(m, buffers, bytes), b) == Bytes(m, b)
  {
    forall a | b.data <= a < b.data + b.size
      ensures Scatter(m, buffers, bytes)[a] == m[a]
    {
      ScatterFrame(m, buffers, bytes, a);
    }
  }

  /** Writing the next bytes where the previous ones ended continues the scatter. */
  lemma {:induction false} ScatterMore<T>(m: seq<T>, buffers: seq<Buffer>, k: nat, offset: nat, xs: seq<T>, ys: seq<T>)
    requires AllIn(buffers, |m|) && k < |buffers|
    requires |xs| == Size(buffers[..k]) + offset && offset + |ys| <= buffers[k].size
    ensures buffers[k].data + offset + |ys| <= |m|
    ensures Splice(Scatter(m, buffers, xs), buffers[k].data + offset, ys) == Scatter(m, buffers, xs + ys)
    decreases |buffers|
  {
    hide Splice;
    if k == 0 {
      ScatterWithinFirst(m, buffers, xs);
      ScatterWithinFirst(m, buffers, xs + ys);
      SpliceSplice(m, buffers[0].data, xs, ys);
    } else {
      var rest, n := buffers[1..], buffers[0].size;
      assert buffers[..k][1..] == rest[..k - 1];
      assert (xs + ys)[..n] == xs[..n] && (xs + ys)[n..] == xs[n..] + ys;
      ScatterMore(Splice(m, buffers[0].data, xs[..n]), rest, k - 1, offset, xs[n..], ys);
    }
  }

  lemma {:induction false} ScatterWithinFirst<T>(m: seq<T>, buffers: seq<Buffer>, xs: seq<T>)
    requires AllIn(buffers, |m|) && buffers != [] && |xs| <= buffers[0].size
    ensures Scatter(m, buffers, xs) == Splice(m, buffers[0].data, xs)
  {
    assert xs[..|xs|] == xs && xs[|xs|..] == [];
    ScatterNothing(Splice(m, buffers[0].data, xs), buffers[1..]);
  }

  lemma {:induction false} GatherFrame<T>(m: seq<T>, m': seq<T>, buffers: seq<Buffer>)
    requires |m| == |m'| && AllIn(buffers, |m|)
    requires forall i | 0 <= i < |buffers| :: Bytes(m, buffers[i]) == Bytes(m', buffers[i])
    ensures Gather(m, buffers) == Gather(m', buffers)
    decreases |buffers|
  {
    if buffers != [] {
      GatherFrame(m, m', buffers[1..]);
    }
  }

  lemma {:induction false} BytesApart<T>(m: seq<T>, b: Buffer, xs: seq<T>, c: Buffer)
    requires b.In(|m|) && |xs| <= b.size && c.In(|m|) && b.Apart(c)
    ensures Bytes(Splice(m, b.data, xs), c) == Bytes(m, c)
  {
    var m' := Splice(m, b.data, xs);
    forall k | 0 <= k < c.size
      ensures Bytes(m', c)[k] == Bytes(m, c)[k]
    {
      assert m'[c.data + k] == m[c.data + k];
    }
  }

  lemma {:induction false} GatherAfterSplice<T>(m: seq<T>, b: Buffer, xs: seq<T>, buffers: seq<Buffer>)
    requires b.In(|m|) && |xs| <= b.size && AllIn(buffers, |m|) && AllApart(b, buffers)
    ensures Gather(Splice(m, b.data, xs), buffers) == Gather(m, buffers)
  {
    hide Splice, Bytes;
    var m' := Splice(m, b.data, xs);
    forall i | 0 <= i < |buffers|
      ensures Bytes(m, buffers[i]) == Bytes(m', buffers[i])
    {
      assert b.Apart(buffers[i]);
      BytesApart(m, b, xs, buffers[i]);
    }
    GatherFrame(m, m', buffers);
  }

  /** Read back, separate buffers hold the bytes written followed by what they held before. */
  lemma {:induction false} GatherScatter<T>(m: seq<T>, buffers: seq<Buffer>, bytes: seq<T>)
    requires AllIn(buffers, |m|) && Separate(buffers) && |bytes| <= Size(buffers)
    ensures Gather(Scatter(m, buffers, bytes), buffers) == bytes + Gather(m, buffers)[|bytes|..]
    decreases |buffers|
  {
    hide Splice, Bytes;
    if buffers != [] {
      var b, rest := buffers[0], buffers[1..];
      var n := Min(b.size, |bytes|);
      var m1 := Splice(m, b.data, bytes[..n]);
      GatherScatter(m1, rest, bytes[n..]);
      GatherAfterSplice(m, b, bytes[..n], rest);
      ScatterFrameRange(m1, rest, bytes[n..], b);
      BytesAfterSplice(m, b, bytes[..n]);
      JoinParts(Bytes(m, b), Gather(m, rest), bytes);
    }
  }

  lemma {:induction false} BytesAfterSplice<T>(m: seq<T>, b: Buffer, xs: seq<T>)
    requires b.In(|m|) && |xs| <= b.size
    ensures |Bytes(m, b)| == b.size && Bytes(Splice(m, b.data, xs), b) == xs + Bytes(m, b)[|xs|..]
  {
  }

  lemma {:induction false} JoinParts<T>(own: seq<T>, rest: seq<T>, bytes: seq<T>)
    requires |bytes| <= |own| + |rest|
    ensures var n := Min(|own|, |bytes|);
            (bytes[..n] + own[n..]) + (bytes[n..] + rest[|bytes| - n..]) == bytes + (own + rest)[|bytes|..]
  {
  }

  /** The promise of a copy: the concatenated target becomes that prefix of the concatenated
      source followed by its own tail, and every byte outside the target stays. */
  lemma {:induction false} CopyMeansPrefix<T>(before: seq<T>, after: seq<T>, target: seq<Buffer>, source: seq<Buffer>, n: nat)
    requires CopiedTo(before, after, target, source, n) && n <= Size(target) && Separate(target)
    ensures |after| == |before|
    ensures Gather(after, target) == Gather(before, source)[..n] + Gather(before, target)[n..]
    ensures forall a | 0 <= a < |before| && Outside(target, a) :: after[a] == before[a]
  {
    var bytes := Gather(before, source)[..n];
    GatherScatter(before, target, bytes);
    forall a | 0 <= a < |before| && Outside(target, a)
      ensures after[a] == before[a]
    {
      ScatterFrame(before, target, bytes, a);
    }
  }

  // ---------------------------------------------------------------- cursors

  /** `offset` bytes into buffer `k` is `c` bytes into the list. */
  predicate Cursor(buffers: seq<Buffer>, k: nat, offset: nat, c: nat) {
    && k <= |buffers| && c == Size(buffers[..k]) + offset
    && if k < |buffers| then offset <= buffers[k].size else offset == 0
  }

  lemma {:induction false} SizeOfPrefix(buffers: seq<Buffer>, k: nat)
    requires k <= |buffers|
    ensures Size(buffers[..k]) <= Size(buffers)
    ensures k < |buffers| ==> Size(buffers[..k + 1]) == Size(buffers[..k]) + buffers[k].size <= Size(buffers)
    ensures k == |buffers| ==> Size(buffers[..k]) == Size(buffers)
    decreases |buffers|
  {
    if k > 0 {
      assert buffers[..k][1..] == buffers[1..][..k - 1];
      SizeOfPrefix(buffers[1..], k - 1);
      if k < |buffers| {
        assert buffers[..k + 1][1..] == buffers[1..][..k];
      }
    } else if buffers != [] {
      assert buffers[..1][1..] == [];
    }
  }

  lemma {:induction false} CursorStart(buffers: seq<Buffer>)
    ensures Cursor(buffers, 0, 0, 0)
  {
  }

  lemma {:induction false} NothingCopied<T>(m: seq<T>, target: seq<Buffer>, source: seq<Buffer>)
    requires AllIn(target, |m|) && AllIn(source, |m|)
    ensures CopiedTo(m, m, target, source, 0)
  {
    ScatterNothing(m, target);
    assert Gather(m, source)[..0] == [];
  }

  lemma {:induction false} CursorWithin(buffers: seq<Buffer>, k: nat, offset: nat, c: nat)
    requires Cursor(buffers, k, offset, c)
    ensures c <= Size(buffers) && (k == |buffers| ==> c == Size(buffers))
  {
    SizeOfPrefix(buffers, k);
  }

  lemma {:induction false} CursorPlace(buffers: seq<Buffer>, k: nat, offset: nat, c: nat)
    requires Cursor(buffers, k, offset, c)
    ensures k <= |buffers| && (k < |buffers| ==> offset <= buffers[k].size)
  {
    hide Size;
  }

  /** What is left of a target buffer and of a source buffer is apart and within the memory. */
  lemma {:induction false} PlacesApart(target: seq<Buffer>, ti: nat, to: nat, source: seq<Buffer>, si: nat, so: nat, length: nat)
    requires AllIn(target, length) && AllIn(source, length) && ListsApart(target, source)
    requires ti < |target| && to <= target[ti].size && si < |source| && so <= source[si].size
    ensures target[ti].Plus(to).In(length) && source[si].Plus(so).In(length)
    ensures target[ti].Plus(to).Apart(source[si].Plus(so))
  {
    assert target[ti].Apart(source[si]);
  }

  /** After `n` more bytes the cursor is further into its buffer, or at the next one. */
  lemma {:induction false} CursorMoves(buffers: seq<Buffer>, k: nat, offset: nat, c: nat, n: nat)
    requires k < |buffers| && Cursor(buffers, k, offset, c) && offset + n <= buffers[k].size
    ensures if offset + n == buffers[k].size then Cursor(buffers, k + 1, 0, c + n)
            else Cursor(buffers, k, offset + n, c + n)
  {
    SizeOfPrefix(buffers, k);
  }

  lemma {:induction false} GatherAtCursor<T>(m: seq<T>, buffers: seq<Buffer>, k: nat, offset: nat, c: nat, n: nat)
    requires AllIn(buffers, |m|) && k < |buffers| && Cursor(buffers, k, offset, c) && offset + n <= buffers[k].size
    ensures c + n <= Size(buffers)
    ensures Gather(m, buffers)[c..c + n] == m[buffers[k].data + offset..buffers[k].data + offset + n]
    decreases |buffers|
  {
    hide Bytes, Gather, Size;
    CursorWithin(buffers, k, offset, c);
    SizeOfPrefix(buffers, k);
    var b, own, rest := buffers[0], Bytes(m, buffers[0]), Gather(m, buffers[1..]);
    GatherCons(m, buffers);
    BytesOf(m, b);
    if k == 0 {
      SliceOfSlice(m, b.data, b.data + b.size, offset, n);
    } else {
      SizeCons(buffers, k);
      GatherAtCursor(m, buffers[1..], k - 1, offset, c - b.size, n);
    }
    SliceOfSum(own, rest, c, n);
  }

  lemma {:induction false} GatherCons<T>(m: seq<T>, buffers: seq<Buffer>)
    requires AllIn(buffers, |m|) && buffers != []
    ensures Gather(m, buffers) == Bytes(m, buffers[0]) + Gather(m, buffers[1..])
    ensures Size(buffers) == buffers[0].size + Size(buffers[1..]) && Size(buffers[..0]) == 0
  {
  }

  lemma {:induction false} SizeCons(buffers: seq<Buffer>, k: nat)
    requires 0 < k <= |buffers|
    ensures Size(buffers[..k]) == buffers[0].size + Size(buffers[1..][..k - 1])
  {
    assert buffers[..k][1..] == buffers[1..][..k - 1];
  }

  lemma {:induction false} BytesOf<T>(m: seq<T>, b: Buffer)
    requires b.In(|m|)
    ensures |Bytes(m, b)| == b.size && Bytes(m, b) == m[b.data..b.data + b.size]
  {
  }

  lemma {:induction false} SliceOfSum<T>(a: seq<T>, b: seq<T>, c: nat, n: nat)
    requires c + n <= |a| + |b| && (c + n <= |a| || |a| <= c)
    ensures (a + b)[c..c + n] == if c + n <= |a| then a[c..c + n] else b[c - |a|..c - |a| + n]
  {
  }

  lemma {:induction false} SliceOfSlice<T>(m: seq<T>, i: nat, j: nat, offset: nat, n: nat)
    requires i <= j <= |m| && i + offset + n <= j
    ensures m[i..j][offset..offset + n] == m[i + offset..i + offset + n]
  {
    var part, direct := m[i..j][offset..offset + n], m[i + offset..i + offset + n];
    forall k | 0 <= k < n
      ensures part[k] == direct[k]
    {
      assert part[k] == m[i..j][offset + k] == m[i + offset + k];
    }
  }

  /** What one `memcpy` adds: the next `n` bytes of the source, behind those copied before. */
  lemma {:induction false} CopyContinues<T>(
      before: seq<T>, now: seq<T>, target: seq<Buffer>, source: seq<Buffer>,
      ti: nat, to: nat, si: nat, so: nat, c: nat, n: nat)
    requires CopiedTo(before, now, target, source, c) && ListsApart(target, source)
    requires ti < |target| && Cursor(target, ti, to, c) && to + n <= target[ti].size
    requires si < |source| && Cursor(source, si, so, c) && so + n <= source[si].size
    ensures |now| == |before| && c + n <= Size(source)
    ensures target[ti].data + to + n <= |now| && source[si].data + so + n <= |now|
    ensures CopiedTo(before, Splice(now, target[ti].data + to, now[source[si].data + so..source[si].data + so + n]),
                     target, source, c + n)
  {
    hide Splice, Scatter, Gather;
    var bytes, from := Gather(before, source), source[si].data + so;
    GatherAtCursor(before, source, si, so, c, n);
    ApartSwap(target, source, si);
    ScatterFrameRange(before, target, bytes[..c], source[si]);
    SameSubrange(now, before, source[si], so, n);
    assert bytes[..c] + bytes[c..c + n] == bytes[..c + n];
    ScatterMore(before, target, ti, to, bytes[..c], bytes[c..c + n]);
  }

  lemma {:induction false} ApartSwap(xs: seq<Buffer>, ys: seq<Buffer>, j: nat)
    requires ListsApart(xs, ys) && j < |ys|
    ensures AllApart(ys[j], xs)
  {
    forall i | 0 <= i < |xs|
      ensures ys[j].Apart(xs[i])
    {
      assert xs[i].Apart(ys[j]);
    }
  }

  lemma {:induction false} SameSubrange<T>(m: seq<T>, m': seq<T>, b: Buffer, offset: nat, n: nat)
    requires |m| == |m'| && b.In(|m|) && Bytes(m, b) == Bytes(m', b) && offset + n <= b.size
    ensures m[b.data + offset..b.data + offset + n] == m'[b.data + offset..b.data + offset + n]
  {
    SliceOfSlice(m, b.data, b.data + b.size, offset, n);
    SliceOfSlice(m', b.data, b.data + b.size, offset, n);
  }

  // ---------------------------------------------------------------- the algorithms

  /** The size of a list, computed in the unsigned type of sizes. */
  method BufferSize(buffers: seq<Buffer>) returns (total: nat)
    ensures total == Size(buffers) % (SIZE_MAX + 1)
  {
    total := 0;
    var iter := 0;
    while iter != |buffers|
      invariant 0 <= iter <= |buffers| && total == Size(buffers[..iter]) % (SIZE_MAX + 1)
    {
      SizeOfPrefix(buffers, iter);
      Words.ModAdd(Size(buffers[..iter]), buffers[iter].size, SIZE_MAX + 1);
      total := (total + buffers[iter].size) % (SIZE_MAX + 1);
      iter := iter + 1;
    }
    SizeOfPrefix(buffers, iter);
  }

  /** Copies the smaller of the two sizes; the buffers must not overlap. */
  method BufferCopy1<T>(mem: array<T>, target: Buffer, source: Buffer) returns (n: nat)
    requires target.In(mem.Length) && source.In(mem.Length) && target.Apart(source)
    modifies mem
    ensures n == Min(target.size, source.size)
    ensures mem[..] == Splice(old(mem[..]), target.data, old(mem[source.data..source.data + n]))
  {
    n := if target.size < source.size then target.size else source.size;
    if n > 0 {
      forall i | 0 <= i < n {
        mem[target.data + i] := mem[source.data + i];
      }
    }
  }

  /** Many buffers to many buffers, with or without a limit on the bytes copied. */
  method CopyManyToMany<T>(mem: array<T>, target: seq<Buffer>, source: seq<Buffer>, limit: Option<nat>)
    returns (total: nat)
    requires AllIn(target, mem.Length) && AllIn(source, mem.Length) && ListsApart(target, source)
    modifies mem
    ensures total == CopyCount(target, source, limit)
    ensures CopiedTo(old(mem[..]), mem[..], target, source, total)
  {
    hide Splice, Scatter, Gather, CopiedTo, Size, AllIn, AllApart, ListsApart, Cursor;
    total := 0;
    var ti, to := 0, 0;
    var si, so := 0, 0;
    NothingCopied(mem[..], target, source);
    CursorStart(target);
    CursorStart(source);
    while limit != Some(total) && ti != |target| && si != |source|
      invariant 0 <= ti && 0 <= to && 0 <= si && 0 <= so
      invariant Cursor(target, ti, to, total) && Cursor(source, si, so, total)
      invariant limit.Some? ==> total <= limit.value
      invariant CopiedTo(old(mem[..]), mem[..], target, source, total)
      decreases |target| - ti + |source| - si, if limit == Some(total) then 0 else 1
    {
      CursorPlace(target, ti, to, total);
      CursorPlace(source, si, so, total);
      PlacesApart(target, ti, to, source, si, so, mem.Length);
      var targetBuffer := target[ti].Plus(to);
      var sourceBuffer := source[si].Plus(so);
      ghost var now := mem[..];
      var n := BufferCopy1(mem, targetBuffer, if limit.Some? then sourceBuffer.Clip(limit.value - total) else sourceBuffer);
      CopyContinues(old(mem[..]), now, target, source, ti, to, si, so, total, n);
      CursorMoves(target, ti, to, total, n);
      CursorMoves(source, si, so, total, n);
      total := total + n;
      if n == targetBuffer.size {
        ti, to := ti + 1, 0;
      } else {
        to := to + n;
      }
      if n == sourceBuffer.size {
        si, so := si + 1, 0;
      } else {
        so := so + n;
      }
    }
    CursorWithin(target, ti, to, total);
    CursorWithin(source, si, so, total);
    CursorPlace(target, ti, to, total);
    CursorPlace(source, si, so, total);
  }

  /** One buffer to one. */
  method CopyOneToOne<T>(mem: array<T>, target: Buffer, source: Buffer, limit: Option<nat>) returns (total: nat)
    requires target.In(mem.Length) && source.In(mem.Length) && target.Apart(source)
    modifies mem
    ensures total == CopyCount([target], [source], limit)
    ensures CopiedTo(old(mem[..]), mem[..], [target], [source], total)
  {
    hide Splice, Scatter, Gather;
    ghost var before := mem[..];
    NothingCopied(before, [target], [source]);
    SizeOfOne(target);
    SizeOfOne(source);
    total := BufferCopy1(mem, target, if limit.Some? then source.Clip(limit.value) else source);
    CursorStart([target]);
    CursorStart([source]);
    CopyContinues(before, before, [target], [source], 0, 0, 0, 0, 0, total);
  }

  /** One buffer filled from many. */
  method CopyManyToOne<T>(mem: array<T>, target: Buffer, source: seq<Buffer>, limit: Option<nat>) returns (total: nat)
    requires mem.Length <= SIZE_MAX
    requires target.In(mem.Length) && AllIn(source, mem.Length) && AllApart(target, source)
    modifies mem
    ensures total == CopyCount([target], source, limit)
    ensures CopiedTo(old(mem[..]), mem[..], [target], source, total)
  {
    hide Splice, Scatter, Gather, CopiedTo, Size;
    var maxBytesToCopy := if limit.Some? then limit.value else SIZE_MAX;
    total := 0;
    var si := 0;
    NothingCopied(mem[..], [target], source);
    CursorStart(source);
    SizeOfOne(target);
    var targetBuffer := target.Clip(maxBytesToCopy);
    while targetBuffer.size != 0 && si != |source|
      invariant 0 <= si && total + targetBuffer.size == Min(target.size, maxBytesToCopy)
      invariant targetBuffer.data == target.data + total
      invariant Cursor(source, si, 0, total) || targetBuffer.size == 0
      invariant total <= Size(source) && si <= |source|
      invariant CopiedTo(old(mem[..]), mem[..], [target], source, total)
      decreases |source| - si
    {
      ghost var now := mem[..];
      assert target.Apart(source[si]);
      var n := BufferCopy1(mem, targetBuffer, source[si]);
      CopyContinues(old(mem[..]), now, [target], source, 0, total, si, 0, total, n);
      CursorMoves(source, si, 0, total, n);
      total := total + n;
      targetBuffer := targetBuffer.Plus(n);
      si := si + 1;
    }
    if targetBuffer.size != 0 {
      CursorWithin(source, si, 0, total);
    }
  }

  /** Many buffers filled from one. */
  method CopyOneToMany<T>(mem: array<T>, target: seq<Buffer>, source: Buffer, limit: Option<nat>) returns (total: nat)
    requires mem.Length <= SIZE_MAX
    requires AllIn(target, mem.Length) && source.In(mem.Length) && ListsApart(target, [source])
    modifies mem
    ensures total == CopyCount(target, [source], limit)
    ensures CopiedTo(old(mem[..]), mem[..], target, [source], total)
  {
    hide Splice, Scatter, Gather, CopiedTo, Size;
    var maxBytesToCopy := if limit.Some? then limit.value else SIZE_MAX;
    total := 0;
    var ti := 0;
    NothingCopied(mem[..], target, [source]);
    CursorStart(target);
    SizeOfOne(source);
    var sourceBuffer := source.Clip(maxBytesToCopy);
    while sourceBuffer.size != 0 && ti != |target|
      invariant 0 <= ti && total + sourceBuffer.size == Min(source.size, maxBytesToCopy)
      invariant sourceBuffer.data == source.data + total
      invariant Cursor(target, ti, 0, total) || sourceBuffer.size == 0
      invariant total <= Size(target) && ti <= |target|
      invariant CopiedTo(old(mem[..]), mem[..], target, [source], total)
      decreases |target| - ti
    {
      ghost var now := mem[..];
      assert target[ti].Apart([source][0]);
      var n := BufferCopy1(mem, target[ti], sourceBuffer);
      CopyContinues(old(mem[..]), now, target, [source], ti, 0, 0, total, total, n);
      CursorMoves(target, ti, 0, total, n);
      SizeOfPrefix(target, ti);
      total := total + n;
      sourceBuffer := sourceBuffer.Plus(n);
      ti := ti + 1;
    }
    if sourceBuffer.size != 0 {
      CursorWithin(target, ti, 0, total);
    }
  }

  lemma {:induction false} SizeOfOne(b: Buffer)
    ensures Size([b]) == b.size && Size([b][..0]) == 0
  {
    assert [b][1..] == [];
  }

  /** A sequence is a single buffer or a list of buffers, which selects the overload. */
  datatype Sequence = One(buffer: Buffer) | Many(buffers: seq<Buffer>) {
    function List(): seq<Buffer> { if One? then [buffer] else buffers }
  }

  /** Whichever overload is selected, the result is that of the general algorithm. */
  method BufferCopy<T>(mem: array<T>, target: Sequence, source: Sequence, limit: Option<nat>) returns (total: nat)
    requires mem.Length <= SIZE_MAX
    requires AllIn(target.List(), mem.Length) && AllIn(source.List(), mem.Length)
    requires ListsApart(target.List(), source.List())
    modifies mem
    ensures total == CopyCount(target.List(), source.List(), limit)
    ensures CopiedTo(old(mem[..]), mem[..], target.List(), source.List(), total)
  {
    hide Scatter, Gather, CopyCount, CopiedTo;
    assert target.One? ==> target.List()[0] == target.buffer;
    assert source.One? ==> source.List()[0] == source.buffer;
    match (target, source)
    case (One(t), One(s)) =>
      assert target.List()[0].Apart(source.List()[0]);
      total := CopyOneToOne(mem, t, s, limit);
    case (One(t), Many(ss)) => total := CopyManyToOne(mem, t, ss, limit);
    case (Many(ts), One(s)) => total := CopyOneToMany(mem, ts, s, limit);
    case (Many(ts), Many(ss)) => total := CopyManyToMany(mem, ts, ss, limit);
  }

  /** The promise, for callers with a target whose buffers do not overlap. */
  method BufferCopyPrefix<T>(mem: array<T>, target: Sequence, source: Sequence, limit: Option<nat>) returns (total: nat)
    requires mem.Length <= SIZE_MAX
    requires AllIn(target.List(), mem.Length) && AllIn(source.List(), mem.Length)
    requires ListsApart(target.List(), source.List()) && Separate(target.List())
    modifies mem
    ensures total == CopyCount(target.List(), source.List(), limit)
    ensures Gather(mem[..], target.List())
         == old(Gather(mem[..], source.List()))[..total] + old(Gather(mem[..], target.List()))[total..]
    ensures Gather(mem[..], source.List()) == old(Gather(mem[..], source.List()))
    ensures forall a | 0 <= a < mem.Length && Outside(target.List(), a) :: mem[a] == old(mem[a])
  {
    hide Scatter, Gather;
    ghost var before := mem[..];
    total := BufferCopy(mem, target, source, limit);
    CopyMeansPrefix(before, mem[..], target.List(), source.List(), total);
    SourceUntouched(before, mem[..], target.List(), source.List(), total);
    forall a | 0 <= a < mem.Length && Outside(target.List(), a)
      ensures mem[a] == before[a]
    {
      assert mem[..][a] == before[a];
    }
  }

  lemma {:induction false} SourceUntouched<T>(before: seq<T>, after: seq<T>, target: seq<Buffer>, source: seq<Buffer>, n: nat)
    requires CopiedTo(before, after, target, source, n) && ListsApart(target, source)
    ensures |after| == |before| && Gather(after, source) == Gather(before, source)
  {
    forall j | 0 <= j < |source|
      ensures Bytes(after, source[j]) == Bytes(before, source[j])
    {
      ApartSwap(target, source, j);
      ScatterFrameRange(before, target, Gather(before, source)[..n], source[j]);
    }
    GatherFrame(before, after, source);
  }
}
