/** The per-channel ring buffer with two-threshold backpressure (internal/ipcbus/ringbuffer.go). */
module RingBuffers {
  import opened Common

  datatype Mode = Normal | SlowDown

  /** Capacity and watermarks as the constructor leaves them. */
  datatype Marks = Marks(size: nat, high: real, low: real) {
    ghost predicate Sane() { size > 0 && 0.0 < high <= 1.0 && 0.0 < low }
  }

  function EffectiveSize(size: int): nat { if size <= 0 then 1024 else size }

  function EffectiveHigh(high: real): real { if high <= 0.0 || high > 1.0 then 0.8 else high }

  function EffectiveLow(high: real, low: real): real {
    if low <= 0.0 || low >= EffectiveHigh(high) then 0.3 else low
  }

  function EffectiveMarks(size: int, high: real, low: real): Marks {
    Marks(EffectiveSize(size), EffectiveHigh(high), EffectiveLow(high, low))
  }

  /** The constructor orders the watermarks except in exactly one family of inputs: the low
      one is replaced by its default and the high one in force is at most that default. The
      router normalises once more before calling it, which changes nothing. */
  lemma WatermarksOrderedIff(size: int, high: real, low: real)
    ensures EffectiveMarks(size, high, low).Sane()
    ensures EffectiveLow(high, low) < EffectiveHigh(high)
            <==> !((low <= 0.0 || low >= EffectiveHigh(high)) && EffectiveHigh(high) <= 0.3)
    ensures var m := EffectiveMarks(size, high, low); EffectiveMarks(m.size, m.high, m.low) == m
  {
  }

  /** Valid inputs are kept as they are, and each invalid one is replaced by its own default. */
  lemma DefaultsOnlyWhereInvalid(size: int, high: real, low: real)
    ensures var m := EffectiveMarks(size, high, low);
            && m.size == (if size > 0 then size else 1024)
            && m.high == (if 0.0 < high <= 1.0 then high else 0.8)
            && m.low == (if 0.0 < low < m.high then low else 0.3)
  {
  }

  function Fill(count: nat, size: nat): real
    requires size > 0
  {
    count as real / size as real
  }

  /** Comparing the ratio with a mark is comparing the count with `mark * size`. */
  lemma FillAgainstMark(count: nat, size: nat, mark: real)
    requires size > 0
    ensures Fill(count, size) >= mark <==> count as real >= mark * size as real
    ensures Fill(count, size) <= mark <==> count as real <= mark * size as real
  {
    var s := size as real;
    var f := Fill(count, size);
    assert f * s == count as real;
    if f >= mark { assert (f - mark) * s >= 0.0; } else { assert (mark - f) * s > 0.0; }
    if f <= mark { assert (mark - f) * s >= 0.0; } else { assert (f - mark) * s > 0.0; }
  }

  // ---- The simple form: a bounded FIFO sequence with a mode ----

  datatype Ring<T> = Ring(items: seq<T>, mode: Mode)

  datatype Op<T> = Push(x: T) | Pop

  function PushRing<T>(k: Marks, r: Ring<T>, x: T): Ring<T>
    requires k.size > 0
  {
    if |r.items| >= k.size then r
    else
      var n := |r.items| + 1;
      Ring(r.items + [x], if r.mode == Normal && Fill(n, k.size) >= k.high then SlowDown else r.mode)
  }

  function PopRing<T>(k: Marks, r: Ring<T>): Ring<T>
    requires k.size > 0
  {
    if |r.items| == 0 then r
    else
      var n := |r.items| - 1;
      Ring(r.items[1..], if r.mode == SlowDown && Fill(n, k.size) <= k.low then Normal else r.mode)
  }

  function Apply<T>(k: Marks, r: Ring<T>, op: Op<T>): Ring<T>
    requires k.size > 0
  {
    match op
    case Push(x) => PushRing(k, r, x)
    case Pop => PopRing(k, r)
  }

  function Run<T>(k: Marks, r: Ring<T>, ops: seq<Op<T>>): Ring<T>
    requires k.size > 0
  {
    if ops == [] then r else Apply(k, Run(k, r, ops[..|ops| - 1]), ops[|ops| - 1])
  }

  function Empty<T>(): Ring<T> { Ring([], Normal) }

  // ---- The fast form: a wrap-around array ----

  function Slot(head: nat, i: nat, size: nat): nat { if head + i < size then head + i else head + i - size }

  lemma ModIsWrap(t: nat, size: nat)
    requires t < size
    ensures (t + 1) % size == if t + 1 == size then 0 else t + 1
  {
    if t + 1 == size { assert (t + 1) % size == 0; }
  }

  /** Moving the head by one renumbers the slots; distinct offsets use distinct slots. */
  lemma Slots(head: nat, size: nat)
    requires head < size
    ensures forall i | 0 <= i < size :: Slot(Slot(head, 1, size), i, size) == Slot(head, i + 1, size)
    ensures forall i, j | 0 <= i < j < size :: Slot(head, i, size) != Slot(head, j, size)
  {
  }

  class RingBuffer<T(0)> {
    const marks: Marks
    const buf: array<Option<T>>
    var head: nat
    var tail: nat
    var count: nat
    var state: Mode

    ghost predicate Valid()
      reads this, buf
    {
      && marks.Sane()
      && buf.Length == marks.size
      && head < marks.size && tail < marks.size && count <= marks.size
      && tail == Slot(head, count, marks.size)
      && (forall i | 0 <= i < count :: buf[Slot(head, i, marks.size)].Some?)
         // a popped slot keeps no reference
      && (forall i | count <= i < marks.size :: buf[Slot(head, i, marks.size)].None?)
    }

    ghost function Items(): (s: seq<T>)
      requires Valid()
      reads this, buf
      ensures |s| == count
    {
      seq(count, i requires 0 <= i < count reads this, buf requires Valid()
          => buf[Slot(head, i, marks.size)].value)
    }

    /** The bounded FIFO this array stands for. */
    ghost function Contents(): Ring<T>
      requires Valid()
      reads this, buf
    {
      Ring(Items(), state)
    }

    constructor (size: int, high: real, low: real)
      ensures Valid() && fresh(buf)
      ensures marks == EffectiveMarks(size, high, low)
      ensures Contents() == Empty()
    {
      marks := EffectiveMarks(size, high, low);
      buf := new Option<T>[EffectiveSize(size)](_ => None);
      head, tail, count, state := 0, 0, 0, Normal;
    }

    /** The array half of Push: write at the tail and advance it. */
    method Store(x: T)
      requires Valid() && count < marks.size
      modifies this`tail, this`count, buf
      ensures Valid() && Items() == old(Items()) + [x]
    {
      ghost var was := Items();
      Slots(head, marks.size);
      buf[tail] := Some(x);
      ModIsWrap(tail, marks.size);
      tail := (tail + 1) % marks.size;
      count := count + 1;
      assert tail == Slot(head, count, marks.size);
      assert Items() == was + [x];
    }

    /** The array half of Pop: read at the head, drop the reference and advance. */
    method Take() returns (msg: Option<T>)
      requires Valid() && count > 0
      modifies this`head, this`count, buf
      ensures Valid() && Items() == old(Items())[1..] && msg == Some(old(Items())[0])
    {
      ghost var was, h := Items(), head;
      Slots(head, marks.size);
      assert head == Slot(head, 0, marks.size);
      msg := buf[head];
      buf[head] := None;
      ModIsWrap(head, marks.size);
      head := (head + 1) % marks.size;
      count := count - 1;
      assert head == Slot(h, 1, marks.size);
      assert forall i | 0 <= i < marks.size :: Slot(head, i, marks.size) == Slot(h, i + 1, marks.size);
      assert h == Slot(head, marks.size - 1, marks.size);
      assert Items() == was[1..];
    }

    method Push(x: T) returns (ok: bool, stateChanged: bool)
      requires Valid()
      modifies this, buf
      ensures Valid()
      ensures Contents() == PushRing(marks, old(Contents()), x)
      ensures ok <==> |old(Contents()).items| < marks.size
      ensures stateChanged <==> old(state) != state
    {
      stateChanged := false;
      if count == marks.size {
        return false, false;
      }
      Store(x);
      var ratio := Fill(count, marks.size);
      if state == Normal && ratio >= marks.high {
        state := SlowDown;
        stateChanged := true;
      }
      ok := true;
    }

    method Pop() returns (msg: Option<T>, stateChanged: bool)
      requires Valid()
      modifies this, buf
      ensures Valid()
      ensures Contents() == PopRing(marks, old(Contents()))
      ensures msg == if old(Contents()).items == [] then None else Some(old(Contents()).items[0])
      ensures stateChanged <==> old(state) != state
    {
      stateChanged := false;
      if count == 0 {
        return None, false;
      }
      msg := Take();
      var ratio := Fill(count, marks.size);
      if state == SlowDown && ratio <= marks.low {
        state := Normal;
        stateChanged := true;
      }
    }
  }

  // ---- Hysteresis over whole runs ----

  ghost predicate Settled<T>(k: Marks, r: Ring<T>)
    requires k.size > 0
  {
    && |r.items| <= k.size
    && (r.mode == Normal ==> Fill(|r.items|, k.size) < k.high)
    && (r.mode == SlowDown ==> Fill(|r.items|, k.size) > k.low)
  }

  ghost function HighCount(k: Marks): real { k.high * k.size as real }

  ghost function LowCount(k: Marks): real { k.low * k.size as real }

  /** The least count at or above the high mark, and the greatest at or below the low one. */
  ghost function Top(k: Marks): int { -((-HighCount(k)).Floor) }

  ghost function Bottom(k: Marks): int { LowCount(k).Floor }

  lemma WholeCounts(k: Marks, c: nat)
    requires k.Sane()
    ensures 1 <= Top(k) <= k.size && 0 <= Bottom(k)
    ensures Fill(c, k.size) >= k.high <==> c >= Top(k)
    ensures Fill(c, k.size) <= k.low <==> c <= Bottom(k)
  {
    FillAgainstMark(c, k.size, k.high);
    FillAgainstMark(c, k.size, k.low);
    assert HighCount(k) > 0.0 && HighCount(k) <= k.size as real && LowCount(k) > 0.0;
  }

  /** Some count within capacity lies at or above the high mark and at or below the low one. */
  ghost predicate MarksOverlap(k: Marks) {
    exists c: nat :: c <= k.size && Between(HighCount(k), LowCount(k), c)
  }

  ghost predicate Between(hi: real, lo: real, c: nat) { hi <= c as real <= lo }

  /** The same machine with its thresholds as counts, free of division. */
  ghost predicate Moves<T>(size: nat, hi: real, lo: real, r: Ring<T>, r': Ring<T>) {
    var n, n' := |r.items|, |r'.items|;
    || r' == r
    || (n' == n + 1 <= size && r'.mode == if r.mode == Normal && n' as real >= hi then SlowDown else r.mode)
    || (n' == n - 1 && r'.mode == if r.mode == SlowDown && n' as real <= lo then Normal else r.mode)
  }

  lemma ApplyMoves<T>(k: Marks, r: Ring<T>, op: Op<T>)
    requires k.size > 0
    ensures Moves(k.size, HighCount(k), LowCount(k), r, Apply(k, r, op))
  {
    var n := |Apply(k, r, op).items|;
    FillAgainstMark(n, k.size, k.high);
    FillAgainstMark(n, k.size, k.low);
  }

  ghost predicate SettledAt<T>(size: nat, hi: real, lo: real, r: Ring<T>) {
    && |r.items| <= size
    && (r.mode == Normal ==> |r.items| as real < hi)
    && (r.mode == SlowDown ==> |r.items| as real > lo)
  }

  lemma SettledAsCounts<T>(k: Marks, r: Ring<T>)
    requires k.size > 0
    ensures Settled(k, r) <==> SettledAt(k.size, HighCount(k), LowCount(k), r)
  {
    FillAgainstMark(|r.items|, k.size, k.high);
    FillAgainstMark(|r.items|, k.size, k.low);
  }

  lemma MoveSettled<T>(size: nat, hi: real, lo: real, r: Ring<T>, r': Ring<T>)
    requires SettledAt(size, hi, lo, r) && Moves(size, hi, lo, r, r')
    requires forall c: nat | c <= size :: !Between(hi, lo, c)
    ensures SettledAt(size, hi, lo, r')
  {
    assert |r'.items| <= size ==> !Between(hi, lo, |r'.items|);
  }

  lemma {:induction false} RunSettled<T>(k: Marks, ops: seq<Op<T>>)
    requires k.Sane() && !MarksOverlap(k)
    ensures Settled(k, Run(k, Empty<T>(), ops))
  {
    SettledAsCounts(k, Run(k, Empty<T>(), ops));
    if ops == [] {
      assert k.high * k.size as real > 0.0;
    } else {
      var r := Run(k, Empty<T>(), ops[..|ops| - 1]);
      RunSettled(k, ops[..|ops| - 1]);
      SettledAsCounts(k, r);
      ApplyMoves(k, r, ops[|ops| - 1]);
      MoveSettled(k.size, HighCount(k), LowCount(k), r, Run(k, Empty<T>(), ops));
    }
  }

  function Pushes<T>(x: T, n: nat): (ops: seq<Op<T>>)
    ensures |ops| == n && forall i | 0 <= i < n :: ops[i] == Op<T>.Push(x)
  {
    seq(n, _ => Op<T>.Push(x))
  }

  /** Pushing from empty keeps the mode Normal below the high mark. */
  lemma {:induction false} FillUp<T>(k: Marks, x: T, n: nat)
    requires k.Sane() && n <= k.size
    requires n == 0 || (n - 1) as real < HighCount(k)
    ensures var r := Run(k, Empty<T>(), Pushes(x, n));
            |r.items| == n && (r.mode == SlowDown <==> n > 0 && n as real >= HighCount(k))
  {
    if n > 0 {
      FillUp(k, x, n - 1);
      assert Pushes(x, n)[..n - 1] == Pushes(x, n - 1);
      FillAgainstMark(n, k.size, k.high);
    }
  }

  /** The least count at or above `hi`, when some count is. */
  lemma LeastCount(hi: real, c: nat) returns (n: nat)
    requires 0.0 < hi <= c as real
    ensures 0 < n <= c && (n - 1) as real < hi <= n as real
  {
    n := 1;
    while n as real < hi
      invariant 1 <= n <= c && (n - 1) as real < hi
      decreases c - n
    {
      n := n + 1;
    }
  }

  lemma OverlapBreaks<T>(k: Marks, x: T) returns (ops: seq<Op<T>>)
    requires k.Sane() && MarksOverlap(k)
    ensures !Settled(k, Run(k, Empty<T>(), ops))
  {
    var hi := HighCount(k);
    assert hi > 0.0;
    var c: nat :| c <= k.size && Between(hi, LowCount(k), c);
    var n := LeastCount(hi, c);
    ops := Pushes(x, n);
    FillUp(k, x, n);
    SettledAsCounts(k, Run(k, Empty<T>(), ops));
  }

  /** The two promises hold in every run exactly when no count lies between the marks. */
  lemma HysteresisIff<T(!new)>(k: Marks, x: T)
    requires k.Sane()
    ensures (forall ops: seq<Op<T>> :: Settled(k, Run(k, Empty<T>(), ops))) <==> !MarksOverlap(k)
    ensures k.low < k.high ==> !MarksOverlap(k)
  {
    if MarksOverlap(k) {
      var ops := OverlapBreaks(k, x);
      if k.low < k.high { MarksScale(k); }
    } else {
      forall ops: seq<Op<T>> ensures Settled(k, Run(k, Empty<T>(), ops)) {
        RunSettled(k, ops);
      }
    }
  }

  lemma MarksScale(k: Marks)
    requires k.size > 0
    ensures HighCount(k) - LowCount(k) == (k.high - k.low) * k.size as real
    ensures k.low < k.high ==> LowCount(k) < HighCount(k)
  {
  }

  /** One backpressure signal: the index of the operation that raised it, the mode entered
      and the count at that moment. */
  datatype Signal = Signal(at: nat, mode: Mode, count: nat)

  function Signals<T>(k: Marks, ops: seq<Op<T>>): seq<Signal>
    requires k.size > 0
  {
    if ops == [] then []
    else
      var before := ops[..|ops| - 1];
      var r, r' := Run(k, Empty<T>(), before), Run(k, Empty<T>(), ops);
      Signals(k, before) + if r.mode == r'.mode then [] else [Signal(|ops| - 1, r'.mode, |r'.items|)]
  }

  function Abs(x: int): nat { if x < 0 then -x else x }

  ghost predicate OnItsSide(hi: real, lo: real, s: Signal) {
    if s.mode == SlowDown then s.count as real >= hi else s.count as real <= lo
  }

  /** At least `gap` operations, net, separate the two signals. */
  ghost predicate Apart(gap: real, s: Signal, t: Signal) {
    s.at < t.at && gap <= Abs(t.count - s.count) as real && Abs(t.count - s.count) <= t.at - s.at
  }

  ghost predicate Alternates(s: seq<Signal>) {
    forall i | 0 <= i < |s| :: s[i].mode == if i % 2 == 0 then SlowDown else Normal
  }

  ghost predicate Spaced(gap: real, s: seq<Signal>) {
    forall i | 0 < i < |s| :: Apart(gap, s[i - 1], s[i])
  }

  /** The present mode and count, seen from the last signal. */
  ghost predicate Tracks<T>(hi: real, lo: real, s: seq<Signal>, r: Ring<T>, n: nat) {
    if s == [] then r.mode == Normal
    else
      var l := s[|s| - 1];
      l.at < n && r.mode == l.mode && OnItsSide(hi, lo, l) && Abs(|r.items| - l.count) <= n - 1 - l.at
  }

  lemma Extend<T>(size: nat, hi: real, lo: real, s: seq<Signal>, r: Ring<T>, r': Ring<T>, n: nat)
    requires Alternates(s) && Spaced(hi - lo, s) && Tracks(hi, lo, s, r, n)
    requires Moves(size, hi, lo, r, r') && lo < hi
    ensures var s' := s + if r.mode == r'.mode then [] else [Signal(n, r'.mode, |r'.items|)];
            Alternates(s') && Spaced(hi - lo, s') && Tracks(hi, lo, s', r', n + 1)
  {
    if r.mode == r'.mode {
      assert s + [] == s;
    } else {
      var t := Signal(n, r'.mode, |r'.items|);
      if s != [] { assert Apart(hi - lo, s[|s| - 1], t); }
      assert |s| > 0 ==> (|s| - 1) % 2 != |s| % 2;
    }
  }

  /** Starting with slow_down the signals of every run alternate, and consecutive ones are at
      least (high - low) * size operations apart. */
  lemma {:induction false} SignalsSpaced<T>(k: Marks, ops: seq<Op<T>>)
    requires k.Sane() && k.low < k.high
    ensures Alternates(Signals(k, ops))
    ensures Spaced(HighCount(k) - LowCount(k), Signals(k, ops))
    ensures Tracks(HighCount(k), LowCount(k), Signals(k, ops), Run(k, Empty<T>(), ops), |ops|)
  {
    if ops != [] {
      var before := ops[..|ops| - 1];
      SignalsSpaced(k, before);
      var r := Run(k, Empty<T>(), before);
      ApplyMoves(k, r, ops[|ops| - 1]);
      MarksScale(k);
      Extend(k.size, HighCount(k), LowCount(k), Signals(k, before), r, Run(k, Empty<T>(), ops), |ops| - 1);
    }
  }
}
