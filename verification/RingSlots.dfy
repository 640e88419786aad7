/**
  The geometry of the ring buffer: the compile-time assertions on its size and index
  type, the slot an index designates, and what it means for the slots to hold a stretch
  of the log of all published elements.
 */
module RingSlots {
  import opened Words

  /** `width` is the number of bits of the index type, `size` the number of slots. */
  datatype Geometry = Geometry(width: nat, size: nat) {

    function Modulus(): nat { Pow2(width) }

    /** The assertions checked when the buffer type is instantiated. */
    predicate Compiles() {
      && width > 0
      && size != 0
      && BitAnd(size, size - 1) == 0
      && size - 1 <= (Modulus() - 1) / 2
    }

    /** The slot designated by an index: the index masked with `size - 1`. */
    function Slot(index: nat): nat
      requires size > 0
    {
      BitAnd(index, size - 1)
    }
  }

  /** What the assertions buy: the size divides the index modulus, and at most half
      of the index values are ever in use. */
  lemma {:induction false} SizeDividesModulus(g: Geometry) returns (c: nat, k: nat)
    requires g.Compiles()
    ensures g.size == Pow2(k) && c > 0 && g.Modulus() == g.size * c
    ensures 2 * g.size <= g.Modulus()
  {
    PowerOfTwoTest(g.size);
    k :| g.size == Pow2(k);
    if k >= g.width {
      Halves(g.Modulus() - 1, Pow2(g.width - 1) - 1, 1);
      if k > g.width {
        Pow2Monotone(g.width, k);
      }
      assert false;
    }
    Pow2Monotone(k, g.width);
    Pow2Sum(k, g.width - k);
    c := Pow2(g.width - k);
  }

  /** The assertions let through exactly the powers of two up to half the index modulus. */
  lemma {:induction false} CompilesIff(g: Geometry)
    ensures g.Compiles() <==> exists k: nat :: k < g.width && g.size == Pow2(k)
  {
    if g.Compiles() {
      var c, k := SizeDividesModulus(g);
      if k > g.width {
        Pow2Monotone(g.width, k);
      }
      assert k < g.width;
    }
    if k: nat :| k < g.width && g.size == Pow2(k) {
      Pow2Monotone(k, g.width);
      Halves(g.Modulus() - 1, Pow2(g.width - 1) - 1, 1);
      PowerOfTwoTest(g.size);
    }
  }

  /** The mask of a wrapped counter is the true counter modulo the size, so slots
      stay in step with the counters when an index overflows. */
  lemma {:induction false} SlotOfCounter(g: Geometry, counter: nat)
    requires g.Compiles()
    ensures g.Slot(counter % g.Modulus()) == counter % g.size
    ensures g.Slot(counter) == counter % g.size
  {
    var c, k := SizeDividesModulus(g);
    MaskIsMod(counter % g.Modulus(), k);
    MaskIsMod(counter, k);
    ModOfMod(counter, g.size, c);
  }

  /** The wrapped distance between two counters at most a buffer apart is exact. */
  lemma {:induction false} DistanceExact(g: Geometry, h: nat, t: nat)
    requires g.Compiles() && t <= h <= t + g.size
    ensures WrapSub(h % g.Modulus(), t % g.Modulus(), g.Modulus()) == h - t
    ensures WrapSub(g.size, h - t, g.Modulus()) == g.size - (h - t)
    ensures h % g.Modulus() == t % g.Modulus() <==> h == t
  {
    var c, k := SizeDividesModulus(g);
    WrapSubExact(h, t, g.Modulus());
    ModUnique(g.size - (h - t), g.Modulus(), 0, g.size - (h - t));
    if h != t {
      ModDistinct(t, h, g.Modulus());
    }
  }

  /** Entry `i` of the log is in its slot. */
  ghost predicate InPlace<T>(slots: seq<T>, log: seq<T>, i: nat) {
    i < |log| && |slots| > 0 && slots[i % |slots|] == log[i]
  }

  /** Every entry of `log` from position `from` on is in its slot. */
  ghost predicate Holds<T>(slots: seq<T>, log: seq<T>, from: nat) {
    forall i: nat | from <= i < |log| :: InPlace(slots, log, i)
  }

  /** Writing the next entry does not disturb the at most `|slots| - 1` entries held. */
  lemma {:induction false} HoldsWrite<T>(slots: seq<T>, log: seq<T>, from: nat, x: T)
    requires from <= |log| < from + |slots| && Holds(slots, log, from)
    ensures Holds(slots[|log| % |slots| := x], log + [x], from)
  {
    var n := |slots|;
    var slots', log' := slots[|log| % n := x], log + [x];
    forall i: nat | from <= i < |log'|
      ensures InPlace(slots', log', i)
    {
      if i < |log| {
        assert InPlace(slots, log, i);
        ModDistinct(i, |log|, n);
      }
    }
  }

  /** The queue an index pair denotes: as many elements as the wrapped difference says,
      fetched through the mask from the tail on. */
  function Buffered<T>(g: Geometry, slots: seq<T>, head: nat, tail: nat): seq<T>
    requires g.Compiles() && |slots| == g.size
  {
    var m := g.Modulus();
    seq(WrapSub(head, tail, m), i requires 0 <= i =>
      SlotOfCounter(g, WrapAdd(tail, i, m));
      slots[g.Slot(WrapAdd(tail, i, m))])
  }

  /** ... and that queue is the part of the log which the slots hold. */
  lemma {:induction false} BufferedIsLogSuffix<T>(g: Geometry, slots: seq<T>, log: seq<T>, from: nat)
    requires g.Compiles() && |slots| == g.size
    requires from <= |log| <= from + g.size && Holds(slots, log, from)
    ensures Buffered(g, slots, |log| % g.Modulus(), from % g.Modulus()) == log[from..]
  {
    var m := g.Modulus();
    DistanceExact(g, |log|, from);
    var b := Buffered(g, slots, |log| % m, from % m);
    forall i | 0 <= i < |b|
      ensures b[i] == log[from..][i]
    {
      ModAdd(from, i, m);
      SlotOfCounter(g, from + i);
      assert InPlace(slots, log, from + i);
      assert log[from..][i] == log[from + i];
    }
  }
}
