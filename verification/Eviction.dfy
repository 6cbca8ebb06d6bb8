/** The byte-budget log buffer of a channel, with its 32-bit accounting, and what it is for:
    keeping the longest suffix of the history that fits. */
module Eviction {
  import opened Wire

  function Total(ps: seq<Parcel>): (t: nat)
    ensures t >= MIN_WIRE * |ps|
  {
    if ps == [] then 0
    else
      SizeBounds(ps[0]);
      WireSize(ps[0]) + Total(ps[1..])
  }

  /** Drop from the front what does not fit. */
  function Fit(h: seq<Parcel>, capacity: nat): (b: seq<Parcel>)
    ensures Total(b) <= capacity && |b| <= |h|
  {
    if Total(h) <= capacity then h else Fit(h[1..], capacity)
  }

  /** `b` is the longest suffix of `h` whose total wire size is at most `capacity`: it starts at
      some position `k`, and every suffix that starts earlier is too large. */
  ghost predicate IsLongestFit(b: seq<Parcel>, h: seq<Parcel>, capacity: nat) {
    exists k: nat :: LongestFrom(k, b, h, capacity)
  }

  ghost predicate LongestFrom(k: nat, b: seq<Parcel>, h: seq<Parcel>, capacity: nat) {
    && k <= |h| && b == h[k..]
    && Total(b) <= capacity
    && forall j :: 0 <= j < k ==> Total(h[j..]) > capacity
  }

  lemma {:induction false} FitIsLongest(h: seq<Parcel>, capacity: nat)
    ensures LongestFrom(|h| - |Fit(h, capacity)|, Fit(h, capacity), h, capacity)
  {
    if Total(h) <= capacity {
      assert h[0..] == h;
    } else {
      var t := h[1..];
      FitIsLongest(t, capacity);
      var k := |t| - |Fit(t, capacity)|;
      assert h[k+1..] == t[k..];
      forall j | 0 <= j < k + 1
        ensures Total(h[j..]) > capacity
      {
        if j == 0 {
          assert h[0..] == h;
        } else {
          assert h[j..] == t[j-1..];
        }
      }
    }
  }

  lemma LongestFitUnique(k: nat, a: seq<Parcel>, b: seq<Parcel>, h: seq<Parcel>, capacity: nat)
    requires LongestFrom(k, a, h, capacity) && IsLongestFit(b, h, capacity)
    ensures a == b
  {
    var l: nat :| LongestFrom(l, b, h, capacity);
    assert k == l;
  }

  /** `Fit` computes exactly the longest fitting suffix. */
  lemma {:induction false} FitExact(b: seq<Parcel>, h: seq<Parcel>, capacity: nat)
    ensures b == Fit(h, capacity) <==> IsLongestFit(b, h, capacity)
  {
    FitIsLongest(h, capacity);
    if IsLongestFit(b, h, capacity) {
      LongestFitUnique(|h| - |Fit(h, capacity)|, Fit(h, capacity), b, h, capacity);
    }
  }

  // ---------------------------------------------------------------- what updateChannel does

  datatype Store = Store(used: UInt32, buffers: seq<Parcel>)

  const EMPTY := Store(0, [])

  /** Unsigned 32-bit addition and subtraction. */
  function Add32(a: UInt32, b: UInt32): UInt32 { if a + b < 0x1_0000_0000 then a + b else a + b - 0x1_0000_0000 }

  function Sub32(a: UInt32, b: UInt32): UInt32 { if b <= a then a - b else a - b + 0x1_0000_0000 }

  /** The eviction loop: drop from the front while the 32-bit sum is over the capacity. */
  function Evict(s: Store, psize: UInt32, capacity: UInt32): (s': Store)
    ensures s'.buffers == [] || Add32(s'.used, psize) <= capacity
    decreases |s.buffers|
  {
    if Add32(s.used, psize) > capacity && s.buffers != []
    then Evict(Store(Sub32(s.used, WireSize(s.buffers[0])), s.buffers[1..]), psize, capacity)
    else s
  }

  function Capable(s: Store, p: Parcel, capacity: UInt32): bool {
    Add32(Evict(s, WireSize(p), capacity).used, WireSize(p)) <= capacity
  }

  /** A log arrives: evict, then store it if it now fits. */
  function Archive(s: Store, p: Parcel, capacity: UInt32): Store {
    var e := Evict(s, WireSize(p), capacity);
    if Capable(s, p, capacity) then Store(Add32(e.used, WireSize(p)), e.buffers + [p]) else e
  }

  function ArchiveAll(s: Store, h: seq<Parcel>, capacity: UInt32): Store
    decreases |h|
  {
    if h == [] then s else Archive(ArchiveAll(s, h[..|h|-1], capacity), h[|h|-1], capacity)
  }

  lemma ArchiveAllSnoc(s: Store, h: seq<Parcel>, p: Parcel, capacity: UInt32)
    ensures ArchiveAll(s, h + [p], capacity) == Archive(ArchiveAll(s, h, capacity), p, capacity)
  {
    hide Archive;
    assert (h + [p])[..|h|] == h;
  }

  // ---------------------------------------------------------------- totals

  lemma {:induction false} TotalAppend(a: seq<Parcel>, b: seq<Parcel>)
    ensures Total(a + b) == Total(a) + Total(b)
  {
    hide WireSize;
    if a == [] {
      assert a + b == b;
    } else {
      TotalAppend(a[1..], b);
      assert (a + b)[1..] == a[1..] + b;
    }
  }

  lemma TotalSingle(p: Parcel)
    ensures Total([p]) == WireSize(p)
  {
    assert [p][1..] == [];
    assert Total([p]) == WireSize(p) + Total([]);
  }

  // ---------------------------------------------------------------- when nothing wraps

  /** Every sum the loop forms fits 32 bits. */
  ghost predicate NeverWraps(capacity: UInt32) { capacity + MAX_WIRE < 0x1_0000_0000 }

  ghost predicate Accounted(s: Store, capacity: UInt32) {
    s.used == Total(s.buffers) && s.used <= capacity
  }

  lemma {:induction false} EvictExact(s: Store, psize: UInt32, capacity: UInt32)
    requires NeverWraps(capacity) && psize <= MAX_WIRE
    requires Accounted(s, capacity)
    ensures Accounted(Evict(s, psize, capacity), capacity)
    ensures Evict(s, psize, capacity).buffers == if psize <= capacity then Fit(s.buffers, capacity - psize) else []
    decreases |s.buffers|
  {
    hide WireSize;
    if s.used + psize > capacity && s.buffers != [] {
      SizeBounds(s.buffers[0]);
      EvictExact(Store(s.used - WireSize(s.buffers[0]), s.buffers[1..]), psize, capacity);
    }
  }

  lemma {:induction false} FitFit(h: seq<Parcel>, small: nat, large: nat)
    requires small <= large
    ensures Fit(Fit(h, large), small) == Fit(h, small)
  {
    if Total(h) > large {
      FitFit(h[1..], small, large);
    }
  }

  lemma {:induction false} FitAppend(h: seq<Parcel>, p: Parcel, capacity: nat)
    ensures Fit(h + [p], capacity) == if WireSize(p) <= capacity then Fit(h, capacity - WireSize(p)) + [p] else []
  {
    hide WireSize;
    TotalSingle(p);
    TotalAppend(h, [p]);
    if h == [] {
      assert h + [p] == [p] && [p][1..] == [];
    } else if Total(h + [p]) > capacity {
      FitAppend(h[1..], p, capacity);
      assert (h + [p])[1..] == h[1..] + [p];
    }
  }

  /** One log keeps the buffer the longest fitting suffix and the accounting exact; it is stored
      exactly when it is not larger than the whole buffer. */
  lemma {:induction false} ArchiveKeepsFit(s: Store, h: seq<Parcel>, p: Parcel, capacity: UInt32)
    requires NeverWraps(capacity)
    requires Accounted(s, capacity) && s.buffers == Fit(h, capacity)
    ensures Accounted(Archive(s, p, capacity), capacity)
    ensures Archive(s, p, capacity).buffers == Fit(h + [p], capacity)
    ensures Capable(s, p, capacity) <==> WireSize(p) <= capacity
  {
    SizeBounds(p);
    hide WireSize;
    EvictExact(s, WireSize(p), capacity);
    FitAppend(h, p, capacity);
    TotalSingle(p);
    TotalAppend(Evict(s, WireSize(p), capacity).buffers, [p]);
    if WireSize(p) <= capacity {
      FitFit(h, capacity - WireSize(p), capacity);
    }
  }

  lemma FewParcels(b: seq<Parcel>, capacity: nat)
    requires Total(b) <= capacity
    ensures |b| <= capacity / MIN_WIRE
  {
    hide Total;
  }

  lemma FitNone(capacity: UInt32)
    ensures Fit([], capacity) == [] && Accounted(EMPTY, capacity)
  {
  }

  /** The buffer refines its specification over every history, when the capacity leaves room for
      one more parcel below 2^32; it then also holds at most capacity/17 parcels. */
  lemma {:induction false} BufferRefines(h: seq<Parcel>, capacity: UInt32)
    requires NeverWraps(capacity)
    ensures var s := ArchiveAll(EMPTY, h, capacity);
            && Accounted(s, capacity)
            && s.buffers == Fit(h, capacity)
            && IsLongestFit(s.buffers, h, capacity)
            && |s.buffers| <= capacity / MIN_WIRE
    decreases |h|
  {
    hide WireSize, Fit, Total, Archive, IsLongestFit;
    FitExact(Fit(h, capacity), h, capacity);
    FewParcels(Fit(h, capacity), capacity);
    if h == [] {
      FitNone(capacity);
    } else {
      var n := |h| - 1;
      BufferRefines(h[..n], capacity);
      ArchiveKeepsFit(ArchiveAll(EMPTY, h[..n], capacity), h[..n], h[n], capacity);
      assert h[..n] + [h[n]] == h;
    }
  }

  // ---------------------------------------------------------------- when something does

  /** As long as everything fits, nothing is evicted and nothing wraps. */
  lemma {:induction false} ArchiveAllFits(h: seq<Parcel>, capacity: UInt32)
    requires Total(h) <= capacity
    ensures ArchiveAll(EMPTY, h, capacity) == Store(Total(h), h)
    decreases |h|
  {
    hide WireSize;
    if h != [] {
      var n := |h| - 1;
      assert h == h[..n] + [h[n]];
      TotalAppend(h[..n], [h[n]]);
      TotalSingle(h[n]);
      ArchiveAllFits(h[..n], capacity);
    }
  }

  /** A parcel of any wire size there is. */
  function Sized(n: nat): (p: Parcel)
    requires MIN_WIRE <= n <= MAX_WIRE
    ensures WireSize(p) == n
  {
    var m := n - MIN_WIRE;
    var m1 := if m <= STRING_CAP then m else STRING_CAP;
    Parcel(0, 0, 0, 0, seq(m1, _ => 0), seq(m - m1, _ => 0))
  }

  /** A history of any total. */
  lemma {:induction false} HistoryOf(n: nat) returns (h: seq<Parcel>)
    requires n >= MIN_WIRE
    ensures Total(h) == n
  {
    if n <= MAX_WIRE {
      h := [Sized(n)];
      TotalSingle(h[0]);
    } else {
      var rest := HistoryOf(n - MIN_WIRE);
      h := [Sized(MIN_WIRE)] + rest;
      TotalSingle(Sized(MIN_WIRE));
      TotalAppend([Sized(MIN_WIRE)], rest);
    }
  }

  /** A channel filled to a capacity so near 2^32 that one more log wraps the sum: the log is
      stored and nothing is evicted. */
  lemma {:induction false} Overflows(capacity: UInt32) returns (h: seq<Parcel>)
    requires !NeverWraps(capacity)
    ensures Total(ArchiveAll(EMPTY, h, capacity).buffers) > capacity
  {
    var p := Sized(MAX_WIRE);
    hide WireSize;
    var full := HistoryOf(capacity);
    ArchiveAllFits(full, capacity);
    h := full + [p];
    assert h[..|h|-1] == full;
    TotalAppend(full, [p]);
    TotalSingle(p);
    assert ArchiveAll(EMPTY, h, capacity) == Archive(Store(capacity, full), p, capacity);
  }

  /** The buffer is the longest fitting suffix of every history exactly when the capacity lies
      more than one maximal parcel below 2^32. */
  lemma {:induction false} RefinesExactlyWhen(capacity: UInt32)
    ensures (forall h :: IsLongestFit(ArchiveAll(EMPTY, h, capacity).buffers, h, capacity)) <==> NeverWraps(capacity)
  {
    if NeverWraps(capacity) {
      forall h
        ensures IsLongestFit(ArchiveAll(EMPTY, h, capacity).buffers, h, capacity)
      {
        BufferRefines(h, capacity);
      }
    } else {
      var h := Overflows(capacity);
    }
  }

  // ---------------------------------------------------------------- what holds for any capacity

  /** The accounting is right up to multiples of 2^32. */
  ghost predicate Congruent(s: Store) { (Total(s.buffers) - s.used) % 0x1_0000_0000 == 0 }

  lemma SumsCongruent(total: int, used: UInt32, size: UInt32)
    requires (total - used) % 0x1_0000_0000 == 0
    ensures (total + size - Add32(used, size)) % 0x1_0000_0000 == 0
    ensures (total - size - Sub32(used, size)) % 0x1_0000_0000 == 0
  {
  }

  lemma {:induction false} EvictCongruent(s: Store, psize: UInt32, capacity: UInt32)
    requires Congruent(s)
    ensures Congruent(Evict(s, psize, capacity))
    decreases |s.buffers|
  {
    hide WireSize, Sub32, Add32;
    if Add32(s.used, psize) > capacity && s.buffers != [] {
      var next := Store(Sub32(s.used, WireSize(s.buffers[0])), s.buffers[1..]);
      SumsCongruent(Total(s.buffers), s.used, WireSize(s.buffers[0]));
      assert Total(next.buffers) == Total(s.buffers) - WireSize(s.buffers[0]);
      EvictCongruent(next, psize, capacity);
    }
  }

  lemma ArchiveCongruent(s: Store, p: Parcel, capacity: UInt32)
    requires Congruent(s)
    ensures Congruent(Archive(s, p, capacity))
  {
    hide WireSize, Evict, Total, Sub32, Add32;
    var e := Evict(s, WireSize(p), capacity);
    EvictCongruent(s, WireSize(p), capacity);
    TotalSingle(p);
    TotalAppend(e.buffers, [p]);
    SumsCongruent(Total(e.buffers), e.used, WireSize(p));
  }

  lemma {:induction false} AlwaysCongruent(h: seq<Parcel>, capacity: UInt32)
    ensures Congruent(ArchiveAll(EMPTY, h, capacity))
    decreases |h|
  {
    hide Archive;
    if h != [] {
      AlwaysCongruent(h[..|h|-1], capacity);
      ArchiveCongruent(ArchiveAll(EMPTY, h[..|h|-1], capacity), h[|h|-1], capacity);
    }
  }

  /** A buffer that has room for the largest parcel stores every log, wrap-around or not. */
  lemma CapableOfAny(s: Store, p: Parcel, capacity: UInt32)
    requires capacity >= MAX_WIRE && Congruent(s)
    ensures Capable(s, p, capacity)
  {
    SizeBounds(p);
    hide WireSize;
    EvictCongruent(s, WireSize(p), capacity);
    assert Evict(s, WireSize(p), capacity).buffers == [] ==> Evict(s, WireSize(p), capacity).used == 0;
  }

  lemma RejectedByEmpty(p: Parcel, capacity: UInt32)
    requires WireSize(p) > capacity
    ensures !Capable(EMPTY, p, capacity) && Archive(EMPTY, p, capacity) == EMPTY
  {
    hide WireSize;
  }

  /** A log that is not stored has emptied the buffer. */
  lemma RejectedEmpties(s: Store, p: Parcel, capacity: UInt32)
    ensures !Capable(s, p, capacity) ==> Archive(s, p, capacity).buffers == []
  {
  }

  lemma {:induction false} EvictIsSuffix(s: Store, psize: UInt32, capacity: UInt32)
    ensures IsSuffix(Evict(s, psize, capacity).buffers, s.buffers)
    decreases |s.buffers|
  {
    if Add32(s.used, psize) > capacity && s.buffers != [] {
      var next := Store(Sub32(s.used, WireSize(s.buffers[0])), s.buffers[1..]);
      EvictIsSuffix(next, psize, capacity);
      SuffixCons(Evict(next, psize, capacity).buffers, s.buffers);
    } else {
      assert s.buffers[0..] == s.buffers;
    }
  }

  ghost predicate IsSuffix<T>(b: seq<T>, h: seq<T>) {
    |b| <= |h| && b == h[|h| - |b|..]
  }

  lemma SuffixCons<T>(b: seq<T>, h: seq<T>)
    requires h != [] && IsSuffix(b, h[1..])
    ensures IsSuffix(b, h)
  {
  }

  lemma SuffixSnoc<T>(b: seq<T>, h: seq<T>, x: T)
    requires IsSuffix(b, h)
    ensures IsSuffix(b + [x], h + [x])
  {
  }

  lemma SuffixTrans<T>(a: seq<T>, b: seq<T>, c: seq<T>)
    requires IsSuffix(a, b) && IsSuffix(b, c)
    ensures IsSuffix(a, c)
  {
  }

  /** With or without wrap-around, one log leaves a suffix of what was there and the log, or nothing. */
  lemma {:induction false} ArchiveIsSuffix(s: Store, p: Parcel, capacity: UInt32)
    ensures IsSuffix(Archive(s, p, capacity).buffers, s.buffers + [p])
  {
    hide WireSize;
    EvictIsSuffix(s, WireSize(p), capacity);
    SuffixSnoc(Evict(s, WireSize(p), capacity).buffers, s.buffers, p);
  }

  /** With or without wrap-around, the buffer is some suffix of the history. */
  lemma {:induction false} BufferIsSuffix(h: seq<Parcel>, capacity: UInt32)
    ensures IsSuffix(ArchiveAll(EMPTY, h, capacity).buffers, h)
    decreases |h|
  {
    hide Archive;
    if h != [] {
      var n := |h| - 1;
      BufferIsSuffix(h[..n], capacity);
      var s := ArchiveAll(EMPTY, h[..n], capacity);
      ArchiveIsSuffix(s, h[n], capacity);
      SuffixSnoc(s.buffers, h[..n], h[n]);
      assert h[..n] + [h[n]] == h;
      SuffixTrans(Archive(s, h[n], capacity).buffers, s.buffers + [h[n]], h);
    }
  }
}
