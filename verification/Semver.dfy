/**
 Version precedence as the command line compares it, against section 11 of Semantic Versioning 2.0.0.

 `round` is what reading a decimal into a double does to a whole number: exact below 2^53, and
 order-preserving but lossy above.
 */
module Semver {
  import opened Decimals
  import opened Wrappers

  // ---- Parsing ----

  predicate IdentifierChar(c: char) {
    Digit(c) || 'A' <= c <= 'Z' || 'a' <= c <= 'z' || c == '-' || c == '.'
  }

  predicate Numeric(s: string) {
    s != "" && forall i :: 0 <= i < |s| ==> Digit(s[i])
  }

  /** A version as parsed: three numbers, and the identifiers of a pre-release. */
  datatype Version = Version(core: seq<nat>, prerelease: Option<seq<string>>)

  /** The texts around the first occurrence of a character, if there is one. */
  function Cut(s: string, c: char): (string, Option<string>) {
    if s == "" then ("", None)
    else if s[0] == c then ("", Some(s[1..]))
    else var (head, tail) := Cut(s[1..], c); ([s[0]] + head, tail)
  }

  function Split(s: string, c: char): seq<string>
    decreases |s|
  {
    var (head, tail) := Cut(s, c);
    CutIsShorter(s, c);
    if tail.None? then [head] else [head] + Split(tail.value, c)
  }

  lemma {:induction false} CutIsShorter(s: string, c: char)
    ensures Cut(s, c).1.Some? ==> |Cut(s, c).1.value| < |s|
  {
    if s != "" && s[0] != c {
      CutIsShorter(s[1..], c);
    }
  }

  predicate Suffix(s: string) {
    s != "" && forall i :: 0 <= i < |s| ==> IdentifierChar(s[i])
  }

  /** `major.minor.patch`, then `-` and a pre-release, then `+` and build metadata. */
  function Parse(s: string, round: nat -> nat): Option<Version> {
    var (release, build) := Cut(s, '+');
    var (core, prerelease) := Cut(release, '-');
    var numbers := Split(core, '.');
    if |numbers| != 3 || !Numeric(numbers[0]) || !Numeric(numbers[1]) || !Numeric(numbers[2]) then
      None
    else if (build.Some? && !Suffix(build.value)) || (prerelease.Some? && !Suffix(prerelease.value))
    then None
    else
      Some(Version([round(Value(numbers[0])), round(Value(numbers[1])), round(Value(numbers[2]))],
                   if prerelease.Some? then Some(Split(prerelease.value, '.')) else None))
  }

  // ---- Comparing, as the source does ----

  /** Two texts in code-unit order. */
  predicate Below(a: string, b: string) {
    b != "" && (a == "" || a[0] < b[0] || (a[0] == b[0] && Below(a[1..], b[1..])))
  }

  function CompareIdentifiers(a: string, b: string, round: nat -> nat): int
    requires a != b
  {
    if Numeric(a) && Numeric(b) then if round(Value(a)) < round(Value(b)) then -1 else 1
    else if Numeric(a) then -1
    else if Numeric(b) then 1
    else if Below(a, b) then -1 else 1
  }

  /** The first place at which two lists differ, or the end of the shorter one. */
  function Agreement(a: seq<string>, b: seq<string>): (k: nat)
    ensures k <= |a| && k <= |b| && a[..k] == b[..k]
    ensures k < |a| && k < |b| ==> a[k] != b[k]
  {
    if a == [] || b == [] || a[0] != b[0] then 0
    else
      var k := Agreement(a[1..], b[1..]);
      assert a[..k + 1] == [a[0]] + a[1..][..k] && b[..k + 1] == [b[0]] + b[1..][..k];
      k + 1
  }

  function ComparePrereleases(a: seq<string>, b: seq<string>, round: nat -> nat): int {
    var k := Agreement(a, b);
    if k == |a| && k == |b| then 0
    else if k == |a| then -1
    else if k == |b| then 1
    else CompareIdentifiers(a[k], b[k], round)
  }

  function CompareVersions(a: Version, b: Version, round: nat -> nat): int
    requires |a.core| == 3 && |b.core| == 3
  {
    if a.core[0] != b.core[0] then (if a.core[0] < b.core[0] then -1 else 1)
    else if a.core[1] != b.core[1] then (if a.core[1] < b.core[1] then -1 else 1)
    else if a.core[2] != b.core[2] then (if a.core[2] < b.core[2] then -1 else 1)
    else if a.prerelease.None? && b.prerelease.None? then 0
    else if a.prerelease.None? then 1
    else if b.prerelease.None? then -1
    else ComparePrereleases(a.prerelease.value, b.prerelease.value, round)
  }

  lemma ParsedHasCore(s: string, round: nat -> nat)
    ensures Parse(s, round).Some? ==> |Parse(s, round).value.core| == 3
  {
  }

  /** The comparison of two texts, when both parse. */
  function Compared(left: string, right: string, round: nat -> nat): Option<int> {
    var l, r := Parse(left, round), Parse(right, round);
    ParsedHasCore(left, round);
    ParsedHasCore(right, round);
    if l.None? || r.None? then None else Some(CompareVersions(l.value, r.value, round))
  }

  method CompareSemver(left: string, right: string, round: nat -> nat) returns (order: Option<int>)
    ensures order == Compared(left, right, round)
    ensures order.Some? <==> Parse(left, round).Some? && Parse(right, round).Some?
    ensures Exact(round) && ValidText(left) && ValidText(right) ==>
              order.Some? && Precedes(Spelled(left).value, Spelled(right).value, order.value)
  {
    order := Scan(left, right, round);
    if Exact(round) && ValidText(left) && ValidText(right) {
      TextsCompareByPrecedence(left, right, round);
    }
  }

  /** The scan of the two versions, which stops at the first difference. */
  method Scan(left: string, right: string, round: nat -> nat) returns (order: Option<int>)
    ensures order == Compared(left, right, round)
  {
    hide Parse;
    ParsedHasCore(left, round);
    ParsedHasCore(right, round);
    var l, r := Parse(left, round), Parse(right, round);
    if l.None? || r.None? { return None; }
    var a, b := l.value, r.value;
    var i := 0;
    while i < 3
      invariant 0 <= i <= 3
      invariant forall j :: 0 <= j < i ==> a.core[j] == b.core[j]
    {
      if a.core[i] != b.core[i] {
        return Some(if a.core[i] < b.core[i] then -1 else 1);
      }
      i := i + 1;
    }
    if a.prerelease.None? && b.prerelease.None? { return Some(0); }
    if a.prerelease.None? { return Some(1); }
    if b.prerelease.None? { return Some(-1); }
    var p, q := a.prerelease.value, b.prerelease.value;
    var k := 0;
    while k < |p| || k < |q|
      invariant 0 <= k <= |p| && k <= |q|
      invariant p[..k] == q[..k]
      decreases |p| + |q| - k
    {
      AgreementFrom(p, q, k);
      if k == |p| { return Some(-1); }
      if k == |q| { return Some(1); }
      if p[k] != q[k] {
        return Some(CompareIdentifiers(p[k], q[k], round));
      }
      assert p[..k + 1] == p[..k] + [p[k]] && q[..k + 1] == q[..k] + [q[k]];
      k := k + 1;
    }
    AgreementFrom(p, q, k);
    order := Some(0);
  }

  lemma SamePrefix(a: seq<string>, b: seq<string>, k: nat)
    requires k <= |a| && k <= |b| && a[..k] == b[..k]
    ensures forall i :: 0 <= i < k ==> a[i] == b[i]
  {
    forall i | 0 <= i < k ensures a[i] == b[i] {
      assert a[..k][i] == b[..k][i];
    }
  }

  lemma AgreementFrom(a: seq<string>, b: seq<string>, k: nat)
    requires k <= |a| && k <= |b| && a[..k] == b[..k]
    ensures k == |a| || k == |b| || a[k] != b[k] ==> Agreement(a, b) == k
  {
    SamePrefix(a, b, k);
    SamePrefix(a, b, Agreement(a, b));
  }

  // ---- Section 11 ----

  const SAFE: nat := 0x20_0000_0000_0000

  ghost predicate Exact(round: nat -> nat) {
    forall n: nat :: n < SAFE ==> round(n) == n
  }

  /** An identifier of section 9, with a number small enough to be exact. */
  predicate ValidIdentifier(s: string) {
    && s != ""
    && (forall i :: 0 <= i < |s| ==> IdentifierChar(s[i]) && s[i] != '.')
    && (Numeric(s) ==> (|s| > 1 ==> s[0] != '0') && Value(s) < SAFE)
  }

  predicate ValidVersion(v: Version) {
    && |v.core| == 3
    && (v.prerelease.Some? ==>
          forall i :: 0 <= i < |v.prerelease.value| ==> ValidIdentifier(v.prerelease.value[i]))
  }

  /** 11.4.1 to 11.4.3: numbers by value, texts in ASCII order, numbers below texts. */
  predicate LowerIdentifier(a: string, b: string) {
    if Numeric(a) && Numeric(b) then Value(a) < Value(b)
    else if Numeric(a) || Numeric(b) then Numeric(a)
    else Below(a, b)
  }

  predicate EqualIdentifiers(a: string, b: string) {
    if Numeric(a) && Numeric(b) then Value(a) == Value(b) else a == b
  }

  /** 11.4.4: at the first unequal identifier, or by being shorter with all of them equal. */
  ghost predicate LowerAt(a: seq<string>, b: seq<string>, k: nat) {
    && k <= |a| && k <= |b|
    && (forall i :: 0 <= i < k ==> EqualIdentifiers(a[i], b[i]))
    && (if k < |a| && k < |b| then LowerIdentifier(a[k], b[k]) else k == |a| && k < |b|)
  }

  predicate LowerCore(a: seq<nat>, b: seq<nat>)
    requires |a| == 3 && |b| == 3
  {
    a[0] < b[0] || (a[0] == b[0] && (a[1] < b[1] || (a[1] == b[1] && a[2] < b[2])))
  }

  /** 11.2 and 11.3: by numbers, then a pre-release below the release, then by its identifiers. */
  ghost predicate Lower(v: Version, w: Version)
    requires |v.core| == 3 && |w.core| == 3
  {
    || LowerCore(v.core, w.core)
    || (v.core == w.core && v.prerelease.Some?
        && (w.prerelease.None? || exists k :: LowerAt(v.prerelease.value, w.prerelease.value, k)))
  }

  lemma {:induction false} BelowTrichotomy(a: string, b: string)
    ensures Below(a, b) || a == b || Below(b, a)
    ensures !(Below(a, b) && Below(b, a)) && !(a == b && Below(a, b))
  {
    if a != "" && b != "" {
      BelowTrichotomy(a[1..], b[1..]);
      if a[0] == b[0] {
        assert a == [a[0]] + a[1..] && b == [b[0]] + b[1..];
      }
    }
  }

  lemma {:induction false} BelowTransitive(a: string, b: string, c: string)
    requires Below(a, b) && Below(b, c)
    ensures Below(a, c)
  {
    if a != "" && a[0] == b[0] == c[0] {
      BelowTransitive(a[1..], b[1..], c[1..]);
    }
  }

  /** Valid identifiers are equal in precedence only if they are the same text. */
  lemma EqualIsSame(a: string, b: string)
    requires ValidIdentifier(a) && ValidIdentifier(b)
    ensures EqualIdentifiers(a, b) <==> a == b
  {
    if Numeric(a) && Numeric(b) {
      ValueDetermines(a);
      ValueDetermines(b);
    }
  }

  lemma IdentifiersAgree(a: string, b: string, round: nat -> nat)
    requires Exact(round) && ValidIdentifier(a) && ValidIdentifier(b) && a != b
    ensures CompareIdentifiers(a, b, round) == if LowerIdentifier(a, b) then -1 else 1
    ensures LowerIdentifier(a, b) <==> !LowerIdentifier(b, a)
  {
    EqualIsSame(a, b);
    BelowTrichotomy(a, b);
  }

  lemma PrereleasesAgree(a: seq<string>, b: seq<string>, round: nat -> nat)
    requires Exact(round)
    requires forall i :: 0 <= i < |a| ==> ValidIdentifier(a[i])
    requires forall i :: 0 <= i < |b| ==> ValidIdentifier(b[i])
    ensures var c := ComparePrereleases(a, b, round);
            && (c == -1 || c == 0 || c == 1) && (c == 0 <==> a == b)
            && (c == -1 <==> exists k :: LowerAt(a, b, k))
  {
    hide ValidIdentifier, LowerIdentifier, CompareIdentifiers, EqualIdentifiers;
    var n := Agreement(a, b);
    SamePrefix(a, b, n);
    forall i | 0 <= i < n ensures EqualIdentifiers(a[i], b[i]) { EqualIsSame(a[i], b[i]); }
    if n < |a| && n < |b| {
      IdentifiersAgree(a[n], b[n], round);
      EqualIsSame(a[n], b[n]);
    }
    if ComparePrereleases(a, b, round) == -1 {
      assert LowerAt(a, b, n);
    }
    forall k: nat | LowerAt(a, b, k) ensures k == n {
      if k < n {
        NotLowerThanItself(a[k], b[k]);
      }
    }
    if n == |a| && n == |b| {
      assert a == a[..n] && b == b[..n];
    }
  }

  lemma NotLowerThanItself(a: string, b: string)
    ensures a == b ==> !LowerIdentifier(a, b)
  {
    BelowTrichotomy(a, b);
  }

  /**
   The comparison is section 11's precedence: -1, 1 or 0 as the left version is lower, higher, or
   equal in numbers and pre-release; build metadata does not count.
   */
  lemma CompareIsPrecedence(v: Version, w: Version, round: nat -> nat)
    requires Exact(round) && ValidVersion(v) && ValidVersion(w)
    ensures CompareVersions(v, w, round) == -1 <==> Lower(v, w)
    ensures CompareVersions(v, w, round) == 1 <==> Lower(w, v)
    ensures CompareVersions(v, w, round) == 0 <==> v == w
    ensures CompareVersions(v, w, round) == -CompareVersions(w, v, round)
  {
    hide ValidIdentifier, LowerAt, ComparePrereleases;
    CoresDiffer(v.core, w.core);
    if v.prerelease.Some? && w.prerelease.Some? {
      PrereleasesAgree(v.prerelease.value, w.prerelease.value, round);
      PrereleasesAgree(w.prerelease.value, v.prerelease.value, round);
      PrereleasesOppose(v.prerelease.value, w.prerelease.value, round);
    }
  }

  /** The version a text spells, its numbers exact. */
  function Spelled(text: string): (v: Option<Version>)
    ensures v.Some? ==> |v.value.core| == 3
  {
    Parse(text, n => n)
  }

  /** A text that spells a valid version with numbers below 2^53. */
  predicate ValidText(text: string) {
    && Spelled(text).Some? && ValidVersion(Spelled(text).value)
    && forall i :: 0 <= i < 3 ==> Spelled(text).value.core[i] < SAFE
  }

  /** What a comparison says is what precedence says. */
  ghost predicate Precedes(v: Version, w: Version, order: int)
    requires |v.core| == 3 && |w.core| == 3
  {
    && (order == -1 <==> Lower(v, w)) && (order == 1 <==> Lower(w, v)) && (order == 0 <==> v == w)
  }

  /** Below 2^53 a version is read exactly as it is spelled. */
  lemma SpelledIsRead(text: string, round: nat -> nat)
    requires Exact(round) && ValidText(text)
    ensures Parse(text, round) == Spelled(text)
  {
    var core := Spelled(text).value.core;
    assert core[0] < SAFE && core[1] < SAFE && core[2] < SAFE;
  }

  /** Comparing two valid texts orders the versions they spell by precedence. */
  lemma TextsCompareByPrecedence(left: string, right: string, round: nat -> nat)
    requires Exact(round) && ValidText(left) && ValidText(right)
    ensures Compared(left, right, round).Some?
    ensures Precedes(Spelled(left).value, Spelled(right).value, Compared(left, right, round).value)
  {
    SpelledIsRead(left, round);
    SpelledIsRead(right, round);
    hide Parse, Lower, CompareVersions, Exact;
    CompareIsPrecedence(Spelled(left).value, Spelled(right).value, round);
  }

  lemma CoresDiffer(a: seq<nat>, b: seq<nat>)
    requires |a| == 3 && |b| == 3
    ensures a == b <==> a[0] == b[0] && a[1] == b[1] && a[2] == b[2]
  {
  }

  lemma AgreementIsSymmetric(a: seq<string>, b: seq<string>)
    ensures Agreement(a, b) == Agreement(b, a)
  {
    AgreementFrom(b, a, Agreement(a, b));
  }

  lemma PrereleasesOppose(a: seq<string>, b: seq<string>, round: nat -> nat)
    requires Exact(round)
    requires forall i :: 0 <= i < |a| ==> ValidIdentifier(a[i])
    requires forall i :: 0 <= i < |b| ==> ValidIdentifier(b[i])
    ensures ComparePrereleases(a, b, round) == -ComparePrereleases(b, a, round)
  {
    hide ValidIdentifier, LowerIdentifier, CompareIdentifiers;
    AgreementIsSymmetric(a, b);
    var k := Agreement(a, b);
    if k < |a| && k < |b| {
      IdentifiersAgree(a[k], b[k], round);
      IdentifiersAgree(b[k], a[k], round);
    }
  }

  lemma LowerIsTransitive(a: string, b: string, c: string)
    requires LowerIdentifier(a, b) && LowerIdentifier(b, c)
    ensures LowerIdentifier(a, c)
  {
    if !Numeric(a) && !Numeric(b) && !Numeric(c) {
      BelowTransitive(a, b, c);
    }
  }

  /** Two lists with a third agree up to where the first of them leaves it. */
  lemma AgreementsMeet(a: seq<string>, b: seq<string>, c: seq<string>)
    ensures var m, n := Agreement(a, b), Agreement(b, c);
            && (m < n ==> Agreement(a, c) == m) && (n < m ==> Agreement(a, c) == n)
            && (m == n ==> Agreement(a, c) >= m)
  {
    var m, n, l := Agreement(a, b), Agreement(b, c), Agreement(a, c);
    SamePrefix(a, b, m);
    SamePrefix(b, c, n);
    SamePrefix(a, c, l);
    var k := if m < n then m else n;
    assert a[..k] == c[..k];
    AgreementFrom(a, c, k);
    AtLeast(a, c, k);
  }

  lemma {:induction false} AtLeast(a: seq<string>, c: seq<string>, k: nat)
    requires k <= |a| && k <= |c| && a[..k] == c[..k]
    ensures Agreement(a, c) >= k
  {
    SamePrefix(a, c, k);
  }

  lemma PrereleasesTransitive(a: seq<string>, b: seq<string>, c: seq<string>, round: nat -> nat)
    requires Exact(round)
    requires forall i :: 0 <= i < |a| ==> ValidIdentifier(a[i])
    requires forall i :: 0 <= i < |b| ==> ValidIdentifier(b[i])
    requires forall i :: 0 <= i < |c| ==> ValidIdentifier(c[i])
    requires ComparePrereleases(a, b, round) <= 0 && ComparePrereleases(b, c, round) <= 0
    ensures ComparePrereleases(a, c, round) <= 0
  {
    hide ValidIdentifier, LowerIdentifier, CompareIdentifiers;
    AgreementsMeet(a, b, c);
    var m, n := Agreement(a, b), Agreement(b, c);
    if m < |a| && m < |b| { IdentifiersAgree(a[m], b[m], round); }
    if n < |b| && n < |c| { IdentifiersAgree(b[n], c[n], round); }
    if m == n && m < |a| && m < |b| && m < |c| {
      LowerIsTransitive(a[m], b[m], c[m]);
      NotLowerThanItself(a[m], c[m]);
      AgreementFrom(a, c, m);
      IdentifiersAgree(a[m], c[m], round);
    }
  }

  /** Among valid versions the comparison is a total preorder. */
  lemma CompareIsTransitive(u: Version, v: Version, w: Version, round: nat -> nat)
    requires Exact(round) && ValidVersion(u) && ValidVersion(v) && ValidVersion(w)
    requires CompareVersions(u, v, round) <= 0 && CompareVersions(v, w, round) <= 0
    ensures CompareVersions(u, w, round) <= 0
  {
    hide ValidIdentifier, ComparePrereleases;
    if u.prerelease.Some? && v.prerelease.Some? && w.prerelease.Some? && u.core == v.core == w.core {
      PrereleasesTransitive(u.prerelease.value, v.prerelease.value, w.prerelease.value, round);
    }
  }

  // ---- Exactly when the comparison is antisymmetric ----

  /** The first unequal identifiers are numbers that read as the same double. */
  predicate Collide(v: Version, w: Version, round: nat -> nat) {
    && v.core == w.core && v.prerelease.Some? && w.prerelease.Some?
    && var a, b := v.prerelease.value, w.prerelease.value;
       var k := Agreement(a, b);
       && k < |a| && k < |b| && Numeric(a[k]) && Numeric(b[k])
       && round(Value(a[k])) == round(Value(b[k]))
  }

  /**
   For any versions, valid or not, comparing the other way round gives the opposite answer except when
   their first unequal identifiers are numbers read as one; then both answers are 1.
   */
  lemma AntisymmetricIff(v: Version, w: Version, round: nat -> nat)
    requires |v.core| == 3 && |w.core| == 3
    ensures CompareVersions(v, w, round) == -CompareVersions(w, v, round)
            <==> !Collide(v, w, round)
    ensures Collide(v, w, round) ==>
              CompareVersions(v, w, round) == 1 == CompareVersions(w, v, round)
  {
    CoresDiffer(v.core, w.core);
    if v.prerelease.Some? && w.prerelease.Some? {
      var a, b := v.prerelease.value, w.prerelease.value;
      AgreementIsSymmetric(a, b);
      var k := Agreement(a, b);
      if k < |a| && k < |b| {
        BelowTrichotomy(a[k], b[k]);
      }
    }
  }

  /** A leading zero is enough: each of `1.0.0-1` and `1.0.0-01` compares above the other. */
  lemma LeadingZeroCollides(round: nat -> nat)
    ensures var v, w := Version([1, 0, 0], Some(["1"])), Version([1, 0, 0], Some(["01"]));
            CompareVersions(v, w, round) == 1 == CompareVersions(w, v, round)
  {
    var v, w := Version([1, 0, 0], Some(["1"])), Version([1, 0, 0], Some(["01"]));
    assert Value("1") == 1 by { assert Digit("1"[0]) && Value("") == 0; }
    assert "01"[..1] == "0" && "0"[..0] == "";
    assert Value("0") == 0;
    assert Value("01") == 1;
    AgreementFrom(["1"], ["01"], 0);
    assert Collide(v, w, round);
    AntisymmetricIff(v, w, round);
  }
}
