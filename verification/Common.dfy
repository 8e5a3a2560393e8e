/** Value types and the byte-wise string order shared by the other modules. */
module Common {

  datatype Option<+T> = None | Some(value: T)

  /** The bus and the SDK exchange this record; its JSON encoding is abstract. */
  datatype Message = Message(id: string, kind: string, channel: string, payload: string)

  /** Go's `<` on strings: lexicographic, a proper prefix is smaller. */
  predicate StrLess(a: string, b: string) {
    |b| > 0 && (|a| == 0 || a[0] < b[0] || (a[0] == b[0] && StrLess(a[1..], b[1..])))
  }

  lemma {:induction false} StrLessTrans(a: string, b: string, c: string)
    requires StrLess(a, b) && StrLess(b, c)
    ensures StrLess(a, c)
  {
    if |a| > 0 && a[0] == b[0] && b[0] == c[0] {
      StrLessTrans(a[1..], b[1..], c[1..]);
    }
  }

  /** Exactly one of `a < b`, `a == b`, `b < a` holds. */
  lemma {:induction false} StrLessTotal(a: string, b: string)
    ensures StrLess(a, b) ==> a != b && !StrLess(b, a)
    ensures a == b || StrLess(a, b) || StrLess(b, a)
  {
    if |a| > 0 && |b| > 0 && a[0] == b[0] {
      StrLessTotal(a[1..], b[1..]);
      if a[1..] == b[1..] {
        assert a == [a[0]] + a[1..];
        assert b == [b[0]] + b[1..];
      }
    }
  }

  ghost predicate NoRepeats(s: seq<string>) {
    forall i, j | 0 <= i < j < |s| :: s[i] != s[j]
  }

  lemma NoRepeatsSnoc(s: seq<string>, x: string)
    requires NoRepeats(s) && x !in s
    ensures NoRepeats(s + [x])
  {
  }
}
