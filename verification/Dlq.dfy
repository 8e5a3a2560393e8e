/** The bounded dead letter queue (internal/ipcbus/dlq.go): a bucket from message id to entry. */
module DeadLetters {
  import opened Common
  import opened Decimal

  datatype DLQEntry = DLQEntry(id: string, channel: string, attempts: int, createdAt: string, msg: Message)

  type Bucket = map<string, DLQEntry>

  /** The bucket's cursor visits every key once, in byte order. */
  ghost predicate IsCursor(keys: seq<string>, b: Bucket) {
    && (forall i | 0 <= i < |keys| :: keys[i] in b)
    && (forall k | k in b :: k in keys)
    && (forall i, j | 0 <= i < j < |keys| :: StrLess(keys[i], keys[j]))
  }

  /** The order in which entries are evicted: by CreatedAt as a string, then by key. */
  predicate Before(b: Bucket, x: string, y: string)
    requires x in b && y in b
  {
    StrLess(b[x].createdAt, b[y].createdAt) || (b[x].createdAt == b[y].createdAt && StrLess(x, y))
  }

  ghost predicate IsOldest(b: Bucket, k: string) {
    k in b && forall j | j in b && j != k :: Before(b, k, j)
  }

  lemma OldestUnique(b: Bucket, k: string, j: string)
    requires IsOldest(b, k) && IsOldest(b, j)
    ensures k == j
  {
    if k != j {
      assert Before(b, k, j) && Before(b, j, k);
      StrLessTotal(b[k].createdAt, b[j].createdAt);
      StrLessTotal(k, j);
    }
  }

  /** Put: evict the oldest entry when the bucket is at capacity, then store under the id. */
  ghost predicate PutStep(maxSize: int, b: Bucket, e: DLQEntry, b': Bucket) {
    if |b| >= maxSize && b != map[] then exists k :: IsOldest(b, k) && b' == (b - {k})[e.id := e]
    else b' == b[e.id := e]
  }

  /** Entries whose CreatedAt parses to a time before the cutoff. */
  predicate Expired(parse: string -> Option<int>, cutoff: int, e: DLQEntry) {
    parse(e.createdAt).Some? && parse(e.createdAt).value < cutoff
  }

  class DLQ {
    const maxSize: int
    var bucket: Bucket

    constructor (maxSize: int)
      ensures this.maxSize == maxSize && bucket == map[]
    {
      this.maxSize := maxSize;
      bucket := map[];
    }

    /** Scans in cursor order for the smallest CreatedAt, keeping the first of equals. */
    method EvictOldest(cursor: seq<string>)
      requires IsCursor(cursor, bucket)
      modifies this`bucket
      ensures old(bucket) == map[] ==> bucket == map[]
      ensures old(bucket) != map[] ==> exists k :: IsOldest(old(bucket), k) && bucket == old(bucket) - {k}
    {
      var oldestKey: Option<string> := None;
      var oldestTime := "";
      var i := 0;
      while i < |cursor|
        invariant 0 <= i <= |cursor| && bucket == old(bucket)
        invariant oldestKey.None? <==> i == 0
        invariant oldestKey.Some? ==> oldestKey.value in cursor[..i] && oldestKey.value in bucket
                                      && oldestTime == bucket[oldestKey.value].createdAt
        invariant oldestKey.Some? ==> forall j | 0 <= j < i && cursor[j] != oldestKey.value ::
                  Before(bucket, oldestKey.value, cursor[j])
      {
        var k := cursor[i];
        var e := bucket[k];
        if oldestKey.None? || StrLess(e.createdAt, oldestTime) {
          if oldestKey.Some? { NewMinimum(bucket, cursor, i, oldestKey.value); }
          oldestKey := Some(k);
          oldestTime := e.createdAt;
        } else {
          KeepsMinimum(bucket, cursor, i, oldestKey.value);
        }
        i := i + 1;
      }
      if oldestKey.Some? {
        ghost var k := oldestKey.value;
        forall j | j in bucket && j != k ensures Before(bucket, k, j) {
          var n :| 0 <= n < |cursor| && cursor[n] == j;
        }
        assert IsOldest(bucket, k);
        bucket := bucket - {oldestKey.value};
      }
    }

    method Put(msg: Message, attempts: int, now: string, cursor: seq<string>)
      requires IsCursor(cursor, bucket)
      modifies this`bucket
      ensures PutStep(maxSize, old(bucket), DLQEntry(msg.id, msg.channel, attempts, now, msg), bucket)
    {
      var e := DLQEntry(msg.id, msg.channel, attempts, now, msg);
      if |bucket| >= maxSize {
        EvictOldest(cursor);
      }
      bucket := bucket[e.id := e];
    }

    /** The first pass: the expired keys, or an error at the first CreatedAt that does not parse. */
    method CollectExpired(cutoff: int, parse: string -> Option<int>, cursor: seq<string>)
      returns (toDelete: seq<string>, ok: bool)
      requires IsCursor(cursor, bucket)
      ensures ok <==> forall k | k in bucket :: parse(bucket[k].createdAt).Some?
      ensures ok ==> forall k :: k in toDelete <==> k in bucket && Expired(parse, cutoff, bucket[k])
      ensures ok ==> forall j, l | 0 <= j < l < |toDelete| :: toDelete[j] != toDelete[l]
    {
      toDelete := [];
      var i := 0;
      while i < |cursor|
        invariant 0 <= i <= |cursor|
        invariant forall j | 0 <= j < i :: parse(bucket[cursor[j]].createdAt).Some?
        invariant forall k :: k in toDelete <==> k in cursor[..i] && Expired(parse, cutoff, bucket[k])
        invariant forall j, l | 0 <= j < l < |toDelete| :: toDelete[j] != toDelete[l]
      {
        var k := cursor[i];
        var t := parse(bucket[k].createdAt);
        if t.None? {
          return toDelete, false;
        }
        DistinctKeys(cursor, i);
        if t.value < cutoff {
          toDelete := toDelete + [k];
        }
        assert cursor[..i + 1] == cursor[..i] + [k];
        i := i + 1;
      }
      ok := true;
    }

    /** The second pass. */
    method DeleteAll(keys: seq<string>) returns (purged: nat)
      requires forall k | k in keys :: k in bucket
      requires forall j, l | 0 <= j < l < |keys| :: keys[j] != keys[l]
      modifies this`bucket
      ensures bucket == map k | k in old(bucket) && k !in keys :: old(bucket)[k]
      ensures purged == |keys| == |old(bucket)| - |bucket|
    {
      purged := 0;
      var i := 0;
      while i < |keys|
        invariant 0 <= i <= |keys| && purged == i
        invariant bucket == map k | k in old(bucket) && k !in keys[..i] :: old(bucket)[k]
        invariant |bucket| == |old(bucket)| - i
      {
        assert keys[..i + 1] == keys[..i] + [keys[i]];
        ghost var kept := bucket.Keys - {keys[i]};
        bucket := bucket - {keys[i]};
        assert bucket.Keys == kept;
        purged := purged + 1;
        i := i + 1;
      }
      assert keys[..i] == keys;
    }

    /** Deletes exactly the expired entries and counts them; one CreatedAt that does not parse
        aborts the whole transaction. */
    method PurgeExpired(cutoff: int, parse: string -> Option<int>, cursor: seq<string>) returns (purged: nat, ok: bool)
      requires IsCursor(cursor, bucket)
      modifies this`bucket
      ensures ok <==> forall k | k in old(bucket) :: parse(old(bucket)[k].createdAt).Some?
      ensures ok ==>
                bucket == map k | k in old(bucket) && parse(old(bucket)[k].createdAt).value >= cutoff :: old(bucket)[k]
      ensures ok ==> purged == |old(bucket)| - |bucket|
      ensures !ok ==> bucket == old(bucket) && purged == 0
    {
      var toDelete;
      toDelete, ok := CollectExpired(cutoff, parse, cursor);
      purged := 0;
      if ok {
        purged := DeleteAll(toDelete);
      }
    }
  }

  lemma DistinctKeys(cursor: seq<string>, i: nat)
    requires i < |cursor| && forall j, k | 0 <= j < k < |cursor| :: StrLess(cursor[j], cursor[k])
    ensures cursor[i] !in cursor[..i]
  {
    forall j | 0 <= j < i ensures cursor[j] != cursor[i] { StrLessTotal(cursor[j], cursor[i]); }
  }

  lemma NewMinimum(b: Bucket, cursor: seq<string>, i: nat, k: string)
    requires i < |cursor| && k in b && (forall j | 0 <= j <= i :: cursor[j] in b)
    requires StrLess(b[cursor[i]].createdAt, b[k].createdAt)
    requires forall j | 0 <= j < i && cursor[j] != k :: Before(b, k, cursor[j])
    ensures forall j | 0 <= j < i :: Before(b, cursor[i], cursor[j])
  {
    forall j | 0 <= j < i ensures Before(b, cursor[i], cursor[j]) {
      if cursor[j] != k {
        assert Before(b, k, cursor[j]);
        if StrLess(b[k].createdAt, b[cursor[j]].createdAt) {
          StrLessTrans(b[cursor[i]].createdAt, b[k].createdAt, b[cursor[j]].createdAt);
        }
      }
    }
  }

  lemma KeepsMinimum(b: Bucket, cursor: seq<string>, i: nat, k: string)
    requires i < |cursor| && k in b && cursor[i] in b && k in cursor[..i]
    requires forall j, l | 0 <= j < l < |cursor| :: StrLess(cursor[j], cursor[l])
    requires !StrLess(b[cursor[i]].createdAt, b[k].createdAt)
    ensures cursor[i] != k && Before(b, k, cursor[i])
  {
    var n :| 0 <= n < i && cursor[n] == k;
    StrLessTotal(k, cursor[i]);
    StrLessTotal(b[cursor[i]].createdAt, b[k].createdAt);
  }

  // ---- Capacity ----

  lemma SizeAfter(b: Bucket, k: string, e: DLQEntry)
    ensures |b[e.id := e]| == |b| + (if e.id in b then 0 else 1)
    ensures k in b ==> |(b - {k})[e.id := e]| == (if e.id in b && e.id != k then |b| - 1 else |b|)
  {
    assert b[e.id := e].Keys == b.Keys + {e.id};
    assert (b - {k}).Keys == b.Keys - {k};
    assert (b - {k})[e.id := e].Keys == (b.Keys - {k}) + {e.id};
  }

  /** Put's exact effect on the size: below capacity a new id adds one; at capacity it never
      grows, and re-putting an id other than the evicted one even shrinks the queue. */
  lemma PutSize(maxSize: int, b: Bucket, e: DLQEntry, b': Bucket)
    requires PutStep(maxSize, b, e, b')
    ensures |b| < maxSize || b == map[] ==> |b'| == |b| + (if e.id in b then 0 else 1)
    ensures |b| >= maxSize && b != map[] ==>
              |b'| == (if e.id in b && !IsOldest(b, e.id) then |b| - 1 else |b|)
  {
    if |b| >= maxSize && b != map[] {
      var k :| IsOldest(b, k) && b' == (b - {k})[e.id := e];
      SizeAfter(b, k, e);
      if IsOldest(b, e.id) { OldestUnique(b, k, e.id); }
    } else {
      SizeAfter(b, e.id, e);
    }
  }

  /** The capacity is respected by every Put exactly when it is at least one. */
  lemma CapacityIff(maxSize: int)
    ensures (forall b, e, b' | |b| <= maxSize && PutStep(maxSize, b, e, b') :: |b'| <= maxSize) && maxSize >= 0
            <==> maxSize >= 1
  {
    if maxSize >= 1 {
      forall b, e, b' | |b| <= maxSize && PutStep(maxSize, b, e, b') ensures |b'| <= maxSize {
        PutSize(maxSize, b, e, b');
      }
    } else if maxSize == 0 {
      var e := DLQEntry("id", "", 0, "", Message("id", "", "", ""));
      var b: Bucket, b': Bucket := map[], map[e.id := e];
      assert PutStep(0, b, e, b');
      assert b'.Keys == {e.id};
    }
  }

  // ---- A run of Puts keeps the newest ----

  ghost predicate Ascending(es: seq<DLQEntry>) {
    forall i, j | 0 <= i < j < |es| :: es[i].id != es[j].id && StrLess(es[i].createdAt, es[j].createdAt)
  }

  ghost predicate HasId(es: seq<DLQEntry>, k: string) {
    exists i :: 0 <= i < |es| && es[i].id == k
  }

  /** The bucket holds these entries and nothing else. */
  ghost predicate Exactly(b: Bucket, es: seq<DLQEntry>) {
    && (forall i | 0 <= i < |es| :: es[i].id in b && b[es[i].id] == es[i])
    && (forall k | k in b :: HasId(es, k))
  }

  ghost predicate DistinctIds(es: seq<DLQEntry>) {
    forall i, j | 0 <= i < j < |es| :: es[i].id != es[j].id
  }

  lemma AddLast(b: Bucket, es: seq<DLQEntry>, e: DLQEntry)
    requires Exactly(b, es) && !HasId(es, e.id)
    ensures Exactly(b[e.id := e], es + [e])
  {
    var es' := es + [e];
    forall k | k in b[e.id := e] ensures HasId(es', k) {
      if k == e.id { assert es'[|es|].id == k; }
      else {
        var i :| 0 <= i < |es| && es[i].id == k;
        assert es'[i].id == k;
      }
    }
  }

  lemma DropFirst(b: Bucket, es: seq<DLQEntry>)
    requires Exactly(b, es) && DistinctIds(es) && es != []
    ensures Exactly(b - {es[0].id}, es[1..])
  {
    forall k | k in b && k != es[0].id ensures HasId(es[1..], k) {
      var i :| 0 <= i < |es| && es[i].id == k;
      assert es[1..][i - 1].id == k;
    }
  }

  lemma {:induction false} ExactlySize(b: Bucket, es: seq<DLQEntry>)
    requires Exactly(b, es) && DistinctIds(es)
    ensures |b| == |es|
  {
    if es == [] {
      assert forall k :: k !in b;
    } else {
      DropFirst(b, es);
      ExactlySize(b - {es[0].id}, es[1..]);
      assert (b - {es[0].id}).Keys == b.Keys - {es[0].id};
    }
  }

  /** In an ascending batch the first entry is the oldest. */
  lemma FirstIsOldest(b: Bucket, es: seq<DLQEntry>)
    requires Exactly(b, es) && Ascending(es) && es != []
    ensures IsOldest(b, es[0].id)
  {
    forall k | k in b && k != es[0].id ensures Before(b, es[0].id, k) {
      var i :| 0 <= i < |es| && es[i].id == k;
      assert StrLess(es[0].createdAt, es[i].createdAt);
    }
  }

  ghost predicate PutRun(maxSize: int, bs: seq<Bucket>, es: seq<DLQEntry>) {
    && |bs| == |es| + 1 && bs[0] == map[]
    && forall i | 0 <= i < |es| :: PutStep(maxSize, bs[i], es[i], bs[i + 1])
  }

  function Newest(es: seq<DLQEntry>, maxSize: nat): seq<DLQEntry> {
    if |es| <= maxSize then es else es[|es| - maxSize..]
  }

  /** After Puts with distinct ids and ascending CreatedAt, exactly the last maxSize remain. */
  lemma {:induction false} KeepsNewest(maxSize: nat, bs: seq<Bucket>, es: seq<DLQEntry>)
    requires maxSize >= 1 && PutRun(maxSize, bs, es) && Ascending(es)
    ensures Exactly(bs[|es|], Newest(es, maxSize))
  {
    if es != [] {
      var n := |es| - 1;
      KeepsNewest(maxSize, bs[..n + 1], es[..n]);
      PutNewest(maxSize, bs[n], es, bs[n + 1]);
    }
  }

  lemma PutNewest(maxSize: nat, b: Bucket, es: seq<DLQEntry>, b': Bucket)
    requires maxSize >= 1 && Ascending(es) && es != []
    requires Exactly(b, Newest(es[..|es| - 1], maxSize)) && PutStep(maxSize, b, es[|es| - 1], b')
    ensures Exactly(b', Newest(es, maxSize))
  {
    Slide(es, maxSize);
    Window(es, if |es| - 1 <= maxSize then 0 else |es| - 1 - maxSize, b);
    PutAfter(maxSize, b, Newest(es[..|es| - 1], maxSize), es[|es| - 1], b');
  }

  lemma Slide(es: seq<DLQEntry>, maxSize: nat)
    requires es != [] && maxSize >= 1
    ensures var n := |es| - 1;
            var w := Newest(es[..n], maxSize);
            && w == es[if n <= maxSize then 0 else n - maxSize..n] && |w| <= maxSize
            && Newest(es, maxSize) == (if |w| < maxSize then w else w[1..]) + [es[n]]
  {
  }

  lemma Window(es: seq<DLQEntry>, lo: nat, b: Bucket)
    requires Ascending(es) && lo < |es| && Exactly(b, es[lo..|es| - 1])
    ensures var w := es[lo..|es| - 1];
            DistinctIds(w) && !HasId(w, es[|es| - 1].id) && (w != [] ==> IsOldest(b, w[0].id))
  {
    var w := es[lo..|es| - 1];
    forall i | 0 <= i < |w| ensures w[i] == es[lo + i] && w[i].id != es[|es| - 1].id {}
    assert Ascending(w);
    if w != [] { FirstIsOldest(b, w); }
  }

  lemma PutAfter(maxSize: nat, b: Bucket, w: seq<DLQEntry>, e: DLQEntry, b': Bucket)
    requires maxSize >= 1 && |w| <= maxSize && DistinctIds(w) && !HasId(w, e.id) && Exactly(b, w)
    requires w != [] ==> IsOldest(b, w[0].id)
    requires PutStep(maxSize, b, e, b')
    ensures Exactly(b', (if |w| < maxSize then w else w[1..]) + [e])
  {
    ExactlySize(b, w);
    if |w| < maxSize {
      AddLast(b, w, e);
    } else {
      DropFirst(b, w);
      var k :| IsOldest(b, k) && b' == (b - {k})[e.id := e];
      OldestUnique(b, k, w[0].id);
      assert !HasId(w[1..], e.id);
      AddLast(b - {k}, w[1..], e);
    }
  }

  // ---- CreatedAt is compared as a string ----

  lemma {:induction false} CommonPrefix(p: string, a: string, b: string)
    ensures StrLess(p + a, p + b) <==> StrLess(a, b)
  {
    if p == [] {
      assert p + a == a && p + b == b;
    } else {
      CommonPrefix(p[1..], a, b);
      assert (p + a)[1..] == p[1..] + a && (p + b)[1..] == p[1..] + b;
    }
  }

  /** The fraction RFC3339Nano prints: up to nine digits without trailing zeros, nothing at all on
      the second. */
  ghost predicate IsFraction(f: string) {
    |f| <= 9 && AllDigits(f) && (f != "" ==> f[|f| - 1] != '0')
  }

  function Tail(f: string): string { if f == "" then "Z" else "." + f + "Z" }

  /** A time of day to the second, in the fixed-width part, and its fraction. */
  function Stamp(second: string, f: string): string { second + Tail(f) }

  function Pow10(n: nat): (p: nat)
    ensures p >= 1
  {
    if n == 0 then 1 else 10 * Pow10(n - 1)
  }

  /** The fraction in units of ten to the minus `w`. */
  ghost function Units(f: string, w: nat): (u: nat)
    requires AllDigits(f) && |f| <= w
    ensures u < Pow10(w)
    decreases w
  {
    if f == "" then 0
    else
      assert IsDigit(f[0]) && AllDigits(f[1..]);
      var d := f[0] as int - '0' as int;
      assert d * Pow10(w - 1) <= 9 * Pow10(w - 1);
      d * Pow10(w - 1) + Units(f[1..], w - 1)
  }

  lemma DigitDecides(d: nat, e: nat, p: nat, r: nat, q: nat)
    requires d < e && r < p
    ensures d * p + r < e * p + q
  {
    assert (d + 1) * p <= e * p;
  }

  lemma {:induction false} UnitsPositive(f: string, w: nat)
    requires AllDigits(f) && |f| <= w && f != "" && f[|f| - 1] != '0'
    ensures Units(f, w) > 0
    decreases w
  {
    assert IsDigit(f[0]) && AllDigits(f[1..]);
    Scaled(f[0] as int - '0' as int, Pow10(w - 1));
    if |f| > 1 { UnitsPositive(f[1..], w - 1); }
  }

  lemma Scaled(d: nat, p: nat)
    requires p >= 1
    ensures d * p >= d
  {
  }

  /** Without trailing zeros, comparing the digits as strings is comparing the fractions. */
  lemma {:induction false} FractionOrder(a: string, b: string, w: nat)
    requires AllDigits(a) && AllDigits(b) && |a| <= w && |b| <= w
    requires (a != "" ==> a[|a| - 1] != '0') && (b != "" ==> b[|b| - 1] != '0')
    ensures StrLess(a, b) <==> Units(a, w) < Units(b, w)
    decreases w
  {
    if a == "" || b == "" {
      if a != "" { UnitsPositive(a, w); }
      if b != "" { UnitsPositive(b, w); }
    } else {
      assert IsDigit(a[0]) && IsDigit(b[0]) && AllDigits(a[1..]) && AllDigits(b[1..]);
      var d, e := a[0] as int - '0' as int, b[0] as int - '0' as int;
      var p, r, q := Pow10(w - 1), Units(a[1..], w - 1), Units(b[1..], w - 1);
      FractionOrder(a[1..], b[1..], w - 1);
      if d < e { DigitDecides(d, e, p, r, q); }
      if e < d { DigitDecides(e, d, p, q, r); }
    }
  }

  /** The closing Z outranks every digit, so a shorter text sorts after what extends it. */
  lemma {:induction false} ClosingZ(a: string, b: string)
    requires AllDigits(a) && AllDigits(b) && a != b
    ensures StrLess(a + "Z", b + "Z") <==> b < a || (StrLess(a, b) && !(a < b))
  {
    if a == "" || b == "" {
      if a != "" { assert IsDigit(a[0]); }
      if b != "" { assert IsDigit(b[0]); }
    } else {
      assert AllDigits(a[1..]) && AllDigits(b[1..]);
      assert (a + "Z")[1..] == a[1..] + "Z" && (b + "Z")[1..] == b[1..] + "Z";
      assert a == [a[0]] + a[1..] && b == [b[0]] + b[1..];
      if a[0] == b[0] {
        ClosingZ(a[1..], b[1..]);
      }
    }
  }

  lemma TailOrder(a: string, b: string)
    requires AllDigits(a) && AllDigits(b) && a != b
    ensures StrLess(Tail(a), Tail(b)) <==> b < a || (StrLess(a, b) && !(a < b))
  {
    if a != "" && b != "" {
      ClosingZ(a, b);
      CommonPrefix(".", a + "Z", b + "Z");
      assert Tail(a) == "." + (a + "Z") && Tail(b) == "." + (b + "Z");
    }
  }

  /** Fixed-width seconds that differ decide on their own. */
  lemma {:induction false} SecondsDecide(s: string, t: string, x: string, y: string)
    requires |s| == |t| && s != t
    ensures StrLess(s + x, t + y) <==> StrLess(s, t)
  {
    assert (s + x)[1..] == s[1..] + x && (t + y)[1..] == t[1..] + y;
    if s[0] == t[0] {
      assert s == [s[0]] + s[1..] && t == [t[0]] + t[1..];
      SecondsDecide(s[1..], t[1..], x, y);
    }
  }

  ghost predicate Earlier(s: string, a: string, t: string, b: string)
    requires IsFraction(a) && IsFraction(b)
  {
    StrLess(s, t) || (s == t && Units(a, 9) < Units(b, 9))
  }

  /** Two different times sort chronologically as text exactly when they differ in the second or
      neither fraction extends the other. */
  lemma StampsSortIff(s: string, a: string, t: string, b: string)
    requires |s| == |t| && IsFraction(a) && IsFraction(b) && (s != t || a != b)
    ensures (StrLess(Stamp(s, a), Stamp(t, b)) <==> Earlier(s, a, t, b)) <==> s != t || (!(a < b) && !(b < a))
  {
    StrLessTotal(s, t);
    if s != t {
      SecondsDecide(s, t, Tail(a), Tail(b));
    } else {
      CommonPrefix(s, Tail(a), Tail(b));
      TailOrder(a, b);
      FractionOrder(a, b, 9);
      StrLessTotal(a, b);
      PrefixLess(a, b);
      PrefixLess(b, a);
    }
  }

  lemma {:induction false} PrefixLess(a: string, b: string)
    ensures a < b ==> StrLess(a, b)
  {
    if a != "" && a < b { PrefixLess(a[1..], b[1..]); }
  }

  lemma EarlierSortsFirstIff(s: string, a: string, t: string, b: string)
    requires |s| == |t| && IsFraction(a) && IsFraction(b) && Earlier(s, a, t, b)
    ensures Stamp(s, a) != Stamp(t, b)
    ensures StrLess(Stamp(s, a), Stamp(t, b)) <==> s != t || !(a < b)
  {
    StrLessTotal(s, t);
    StampsSortIff(s, a, t, b);
    if s == t {
      FractionOrder(a, b, 9);
      StrLessTotal(a, b);
      PrefixLess(b, a);
      CommonPrefix(s, Tail(a), Tail(b));
      TailOrder(a, b);
      assert Stamp(s, a) != Stamp(t, b) by { StampsDiffer(s, a, b); }
    } else {
      assert Stamp(s, a)[..|s|] == s && Stamp(t, b)[..|t|] == t;
    }
  }

  function FractionOf(tail: string): string { if |tail| <= 1 then "" else tail[1..|tail| - 1] }

  lemma StampsDiffer(s: string, a: string, b: string)
    requires a != b
    ensures Stamp(s, a) != Stamp(s, b)
  {
    assert FractionOf(Tail(a)) == a && FractionOf(Tail(b)) == b;
    assert Stamp(s, a)[|s|..] == Tail(a) && Stamp(s, b)[|s|..] == Tail(b);
  }

  datatype Time = Time(second: string, fraction: string)

  const SECOND_LEN: nat := 19

  /** Every entry's CreatedAt is the text of its time. */
  ghost predicate Stamped(b: Bucket, at: map<string, Time>) {
    && at.Keys == b.Keys
    && (forall k | k in b :: |at[k].second| == SECOND_LEN && IsFraction(at[k].fraction)
                             && b[k].createdAt == Stamp(at[k].second, at[k].fraction))
  }

  /** `x` is the first in time, and the first key among entries made at one instant. */
  ghost predicate Earliest(b: Bucket, at: map<string, Time>, x: string)
    requires Stamped(b, at)
  {
    x in b && forall k | k in b && k != x ::
      Earlier(at[x].second, at[x].fraction, at[k].second, at[k].fraction) || (at[x] == at[k] && StrLess(x, k))
  }

  /** Of any bucket the earliest entry is evicted exactly when no other entry of its second extends
      its fraction. */
  lemma EvictsEarliestIff(b: Bucket, at: map<string, Time>, x: string)
    requires Stamped(b, at) && Earliest(b, at, x)
    ensures IsOldest(b, x)
            <==> forall k | k in b && k != x :: at[k].second == at[x].second ==> !(at[x].fraction < at[k].fraction)
  {
    forall k | k in b && k != x
      ensures Before(b, x, k) <==> at[k].second != at[x].second || !(at[x].fraction < at[k].fraction)
    {
      StrLessTotal(at[x].second, at[x].second);
      if at[x] != at[k] {
        EarlierSortsFirstIff(at[x].second, at[x].fraction, at[k].second, at[k].fraction);
      }
    }
  }
}
