/** Version precedence (section 11 of Semantic Versioning 2.0.0) and the choice of the best
    tag (internal/registry/resolver.go). Parsing tags and constraints is abstract. */
module Semver {
  import opened Common

  datatype Ident = Num(n: nat) | Alpha(s: string)

  /** A parsed version; build metadata takes no part in precedence. */
  datatype Version = Version(major: nat, minor: nat, patch: nat, pre: seq<Ident>)

  function CmpNat(a: nat, b: nat): int { if a < b then -1 else if a > b then 1 else 0 }

  function CmpStr(a: string, b: string): int { if a == b then 0 else if StrLess(a, b) then -1 else 1 }

  /** Numeric identifiers rank below alphanumeric ones. */
  function CmpIdent(a: Ident, b: Ident): int {
    match (a, b)
    case (Num(m), Num(n)) => CmpNat(m, n)
    case (Num(_), Alpha(_)) => -1
    case (Alpha(_), Num(_)) => 1
    case (Alpha(s), Alpha(t)) => CmpStr(s, t)
  }

  /** Field by field; a longer list outranks its own prefix. */
  function CmpIdents(a: seq<Ident>, b: seq<Ident>): int {
    if a == [] && b == [] then 0
    else if a == [] then -1
    else if b == [] then 1
    else if CmpIdent(a[0], b[0]) != 0 then CmpIdent(a[0], b[0])
    else CmpIdents(a[1..], b[1..])
  }

  /** A release outranks its pre-releases. */
  function CmpPre(a: seq<Ident>, b: seq<Ident>): int {
    if a == [] && b != [] then 1 else if a != [] && b == [] then -1 else CmpIdents(a, b)
  }

  function Cmp(a: Version, b: Version): int {
    if CmpNat(a.major, b.major) != 0 then CmpNat(a.major, b.major)
    else if CmpNat(a.minor, b.minor) != 0 then CmpNat(a.minor, b.minor)
    else if CmpNat(a.patch, b.patch) != 0 then CmpNat(a.patch, b.patch)
    else CmpPre(a.pre, b.pre)
  }

  // ---- Precedence is a total order ----

  lemma CmpStrOrder(a: string, b: string, c: string)
    ensures CmpStr(a, b) == -CmpStr(b, a)
    ensures CmpStr(a, b) <= 0 && CmpStr(b, c) <= 0 ==> CmpStr(a, c) <= 0 && (a != b || b != c ==> CmpStr(a, c) < 0)
  {
    StrLessTotal(a, b);
    StrLessTotal(b, c);
    if StrLess(a, b) && StrLess(b, c) {
      StrLessTrans(a, b, c);
      StrLessTotal(a, c);
    }
  }

  lemma CmpIdentOrder(a: Ident, b: Ident, c: Ident)
    ensures CmpIdent(a, b) == -CmpIdent(b, a) && (CmpIdent(a, b) == 0 <==> a == b)
    ensures CmpIdent(a, b) <= 0 && CmpIdent(b, c) <= 0 ==>
            CmpIdent(a, c) <= 0 && (a != b || b != c ==> CmpIdent(a, c) < 0)
  {
    if a.Alpha? && b.Alpha? {
      CmpStrOrder(a.s, b.s, b.s);
      if c.Alpha? { CmpStrOrder(a.s, b.s, c.s); }
    }
  }

  lemma {:induction false} CmpIdentsOrder(a: seq<Ident>, b: seq<Ident>, c: seq<Ident>)
    ensures CmpIdents(a, b) == -CmpIdents(b, a) && (CmpIdents(a, b) == 0 <==> a == b)
    ensures CmpIdents(a, b) <= 0 && CmpIdents(b, c) <= 0 ==>
            CmpIdents(a, c) <= 0 && (a != b || b != c ==> CmpIdents(a, c) < 0)
  {
    if a != [] && b != [] {
      assert a == [a[0]] + a[1..] && b == [b[0]] + b[1..];
      if c == [] {
        CmpIdentOrder(a[0], b[0], b[0]);
        CmpIdentsOrder(a[1..], b[1..], []);
      } else {
        assert c == [c[0]] + c[1..];
        CmpIdentOrder(a[0], b[0], c[0]);
        CmpIdentOrder(b[0], c[0], c[0]);
        CmpIdentsOrder(a[1..], b[1..], c[1..]);
      }
    }
  }

  lemma CmpOrder(a: Version, b: Version, c: Version)
    ensures Cmp(a, b) == -Cmp(b, a) && (Cmp(a, b) == 0 <==> a == b)
    ensures Cmp(a, b) <= 0 && Cmp(b, c) <= 0 ==> Cmp(a, c) <= 0 && (a != b || b != c ==> Cmp(a, c) < 0)
  {
    CmpIdentsOrder(a.pre, b.pre, c.pre);
    CmpIdentsOrder(b.pre, c.pre, c.pre);
  }

  // ---- Precedence as section 11 words it ----

  /** Numeric identifiers compare numerically, others in ASCII order, numeric ones rank lower. */
  ghost predicate IdentBelow(a: Ident, b: Ident) {
    || (a.Num? && b.Num? && a.n < b.n)
    || (a.Num? && b.Alpha?)
    || (a.Alpha? && b.Alpha? && StrLess(a.s, b.s))
  }

  /** At position `i` the lists first differ: `a` ends there, or its identifier is lower. */
  ghost predicate DecidedAt(a: seq<Ident>, b: seq<Ident>, i: nat) {
    && i <= |a| && i < |b| && a[..i] == b[..i]
    && (i == |a| || IdentBelow(a[i], b[i]))
  }

  /** Major, minor and patch decide in that order; then a pre-release is below the release, and two
      pre-releases are decided by the first identifier that differs, a longer list being higher. */
  ghost predicate Precedes(a: Version, b: Version) {
    || a.major < b.major
    || (a.major == b.major && a.minor < b.minor)
    || (a.major == b.major && a.minor == b.minor && a.patch < b.patch)
    || (a.major == b.major && a.minor == b.minor && a.patch == b.patch
        && a.pre != [] && (b.pre == [] || exists i: nat :: DecidedAt(a.pre, b.pre, i)))
  }

  lemma {:induction false} CmpIdentsMeans(a: seq<Ident>, b: seq<Ident>)
    ensures CmpIdents(a, b) < 0 <==> exists i: nat :: DecidedAt(a, b, i)
  {
    if a == [] {
      if b != [] { assert DecidedAt(a, b, 0); }
    } else if b != [] {
      CmpIdentsMeans(a[1..], b[1..]);
      if a[0].Alpha? && b[0].Alpha? { StrLessTotal(a[0].s, b[0].s); }
      if CmpIdents(a, b) < 0 {
        if a[0] == b[0] {
          var i: nat :| DecidedAt(a[1..], b[1..], i);
          assert a[..i + 1] == [a[0]] + a[1..][..i] && b[..i + 1] == [b[0]] + b[1..][..i];
          assert DecidedAt(a, b, i + 1);
        } else {
          assert DecidedAt(a, b, 0);
        }
      }
      if i: nat :| DecidedAt(a, b, i) {
        DecidedTail(a, b, i);
      }
    }
  }

  lemma DecidedTail(a: seq<Ident>, b: seq<Ident>, i: nat)
    requires a != [] && b != [] && DecidedAt(a, b, i)
    ensures i == 0 ==> IdentBelow(a[0], b[0])
    ensures i > 0 ==> a[0] == b[0] && DecidedAt(a[1..], b[1..], i - 1)
  {
    if i > 0 {
      assert a[..i][0] == b[..i][0];
      assert a[1..][..i - 1] == a[..i][1..] && b[1..][..i - 1] == b[..i][1..];
    }
  }

  /** The comparison is section 11's order. */
  lemma CmpIsPrecedence(a: Version, b: Version)
    ensures Cmp(a, b) < 0 <==> Precedes(a, b)
  {
    CmpIdentsMeans(a.pre, b.pre);
  }

  // ---- Choosing a tag ----

  type Parser = string -> Option<Version>

  /** The running version as a lower bound: none when empty or unparsable. */
  function Floor(parse: Parser, current: string): Option<Version> {
    if current == "" then None else parse(current)
  }

  predicate Above(parse: Parser, current: string, v: Version) {
    Floor(parse, current).Some? ==> Cmp(v, Floor(parse, current).value) > 0
  }

  /** Above means: no parsable version is running, or the one that is precedes it. */
  lemma AboveIff(parse: Parser, current: string, v: Version)
    ensures Above(parse, current, v) <==> current == "" || parse(current).None? || Precedes(parse(current).value, v)
  {
    if current != "" && parse(current).Some? {
      CmpOrder(parse(current).value, v, v);
      CmpIsPrecedence(parse(current).value, v);
    }
  }

  predicate Eligible(parse: Parser, allows: Version -> bool, current: string, failed: seq<string>, tag: string) {
    parse(tag).Some? && allows(parse(tag).value) && tag !in failed && Above(parse, current, parse(tag).value)
  }

  /** `b` is the first among the highest eligible tags. */
  ghost predicate Best(parse: Parser, allows: Version -> bool, current: string, failed: seq<string>,
                       tags: seq<string>, b: int)
  {
    && 0 <= b < |tags| && Eligible(parse, allows, current, failed, tags[b])
    && forall j | 0 <= j < |tags| && Eligible(parse, allows, current, failed, tags[j]) ::
         var o := Cmp(parse(tags[j]).value, parse(tags[b]).value); o <= 0 && (j < b ==> o < 0)
  }

  /** The index of the best tag, if any is eligible. */
  function BestIndex(parse: Parser, allows: Version -> bool, current: string, failed: seq<string>,
                     tags: seq<string>): (r: Option<nat>)
    ensures r.Some? ==> Best(parse, allows, current, failed, tags, r.value)
    ensures r.None? ==> forall j | 0 <= j < |tags| :: !Eligible(parse, allows, current, failed, tags[j])
  {
    if tags == [] then None
    else
      var n := |tags| - 1;
      var r := BestIndex(parse, allows, current, failed, tags[..n]);
      assert tags == tags[..n] + [tags[n]];
      if !Eligible(parse, allows, current, failed, tags[n]) then r
      else if r.None? then
        CmpOrder(parse(tags[n]).value, parse(tags[n]).value, parse(tags[n]).value);
        Some(n)
      else if Cmp(parse(tags[n]).value, parse(tags[r.value]).value) > 0 then
        NewBest(parse, allows, current, failed, tags, r.value);
        Some(n)
      else r
  }

  function Resolve(parse: Parser, tags: seq<string>, constraint: Option<Version -> bool>, current: string,
                   failed: seq<string>): (r: Option<string>)
    ensures r.Some? ==>
              constraint.Some? && r.value in tags && Eligible(parse, constraint.value, current, failed, r.value)
  {
    if constraint.None? then None
    else
      var b := BestIndex(parse, constraint.value, current, failed, tags);
      if b.None? then None else Some(tags[b.value])
  }

  /** The highest tag that parses, satisfies the constraint, is above the running version and has
      not failed; `constraint` is None when it does not parse. */
  method ResolveBestVersion(parse: Parser, tags: seq<string>, constraint: Option<Version -> bool>, current: string,
                            failed: seq<string>)
    returns (r: Option<string>)
    ensures constraint.None? ==> r.None?
    ensures constraint.Some? ==>
              (r.None? <==> forall j | 0 <= j < |tags| :: !Eligible(parse, constraint.value, current, failed, tags[j]))
    ensures r.Some? ==> exists b :: Best(parse, constraint.value, current, failed, tags, b) && tags[b] == r.value
    ensures r == Resolve(parse, tags, constraint, current, failed)
  {
    if constraint.None? {
      return None;
    }
    var allows := constraint.value;
    var currentVer := if current != "" then parse(current) else None;
    var failedSet: set<string> := {};
    var i := 0;
    while i < |failed|
      invariant 0 <= i <= |failed| && failedSet == set f | f in failed[..i]
    {
      failedSet := failedSet + {failed[i]};
      i := i + 1;
    }
    assert failed[..i] == failed;
    var best: Option<Version> := None;
    r := None;
    i := 0;
    while i < |tags|
      invariant 0 <= i <= |tags| && (r.None? <==> best.None?)
      invariant var b := BestIndex(parse, allows, current, failed, tags[..i]);
                if b.None? then r.None? else r == Some(tags[b.value]) && best == parse(tags[b.value])
    {
      var tag := tags[i];
      var v := parse(tag);
      i := i + 1;
      assert tags[..i][..i - 1] == tags[..i - 1];
      if v.None? || !allows(v.value) || tag in failedSet
         || (currentVer.Some? && !(Cmp(v.value, currentVer.value) > 0)) {
        assert !Eligible(parse, allows, current, failed, tag);
        continue;
      }
      if best.None? || Cmp(v.value, best.value) > 0 {
        best, r := v, Some(tag);
      }
    }
    assert tags[..i] == tags;
  }

  lemma NewBest(parse: Parser, allows: Version -> bool, current: string, failed: seq<string>, tags: seq<string>, b: int)
    requires tags != [] && Best(parse, allows, current, failed, tags[..|tags| - 1], b)
    requires var n := |tags| - 1;
             && Eligible(parse, allows, current, failed, tags[n])
             && Cmp(parse(tags[n]).value, parse(tags[b]).value) > 0
    ensures Best(parse, allows, current, failed, tags, |tags| - 1)
  {
    var n := |tags| - 1;
    var v := parse(tags[n]).value;
    var w := parse(tags[b]).value;
    CmpOrder(v, w, w);
    CmpOrder(v, v, v);
    forall j | 0 <= j < n && Eligible(parse, allows, current, failed, tags[j])
      ensures Cmp(parse(tags[j]).value, v) < 0
    {
      assert tags[..n][j] == tags[j];
      CmpOrder(parse(tags[j]).value, w, v);
    }
  }
}
