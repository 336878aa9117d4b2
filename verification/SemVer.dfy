/**
 Version precedence (scripts/registry-package-status.py) against item 11 of Semantic Versioning
 2.0.0, and what it means for the registry tag that may only move forward.

 A version is given by what the pattern match yields: three numbers, the dot-separated prerelease
 identifiers if there are any, and build metadata.
 */
module SemVer {
  import opened Wrappers

  datatype Version = Version(core: seq<nat>, prerelease: Option<seq<string>>, build: string)

  datatype Identifier = Numeric(number: nat) | Alphanumeric(text: string)

  datatype Precedence = Precedence(core: seq<nat>, prerelease: Option<seq<Identifier>>)

  // ---------------------------------------------------------------- parsing identifiers

  predicate IsDigit(c: char) {
    '0' <= c <= '9'
  }

  predicate AllDigits(s: string) {
    s != "" && forall i :: 0 <= i < |s| ==> IsDigit(s[i])
  }

  function Digit(c: char): nat
    requires IsDigit(c)
  {
    c as int - '0' as int
  }

  function Number(s: string): nat
    requires forall i :: 0 <= i < |s| ==> IsDigit(s[i])
  {
    if s == "" then 0 else 10 * Number(s[..|s| - 1]) + Digit(s[|s| - 1])
  }

  function ParseIdentifier(s: string): Option<Identifier> {
    if AllDigits(s) then if |s| > 1 && s[0] == '0' then None else Some(Numeric(Number(s)))
    else Some(Alphanumeric(s))
  }

  function ParseIdentifiers(parts: seq<string>): Option<seq<Identifier>> {
    if parts == [] then Some([])
    else
      match (ParseIdentifiers(parts[..|parts| - 1]), ParseIdentifier(parts[|parts| - 1]))
      case (Some(earlier), Some(last)) => Some(earlier + [last])
      case _ => None
  }

  /** The precedence key of a version, or none when a numeric identifier has a leading zero. */
  function KeyOf(v: Version): Option<Precedence> {
    match v.prerelease
    case None => Some(Precedence(v.core, None))
    case Some(parts) =>
      match ParseIdentifiers(parts)
      case Some(ids) => Some(Precedence(v.core, Some(ids)))
      case None => None
  }

  predicate ValidVersion(v: Version) {
    |v.core| == 3 && KeyOf(v).Some? && (v.prerelease.Some? ==> v.prerelease.value != [])
  }

  lemma {:induction false} ParseFailsEarly(parts: seq<string>, i: nat)
    requires i <= |parts| && ParseIdentifiers(parts[..i]).None?
    ensures ParseIdentifiers(parts).None?
    decreases |parts| - i
  {
    if i == |parts| {
      assert parts[..i] == parts;
    } else {
      assert parts[..i + 1][..i] == parts[..i];
      ParseFailsEarly(parts, i + 1);
    }
  }

  method SemverPrecedence(v: Version) returns (r: Option<Precedence>)
    ensures r == KeyOf(v)
  {
    if v.prerelease.None? {
      return Some(Precedence(v.core, None));
    }
    var parts := v.prerelease.value;
    var identifiers: seq<Identifier> := [];
    var i := 0;
    while i < |parts|
      invariant 0 <= i <= |parts|
      invariant ParseIdentifiers(parts[..i]) == Some(identifiers)
    {
      assert parts[..i + 1][..i] == parts[..i];
      var identifier := parts[i];
      if AllDigits(identifier) {
        if |identifier| > 1 && identifier[0] == '0' {
          ParseFailsEarly(parts, i + 1);
          return None;
        }
        identifiers := identifiers + [Numeric(Number(identifier))];
      } else {
        identifiers := identifiers + [Alphanumeric(identifier)];
      }
      i := i + 1;
    }
    assert parts[..i] == parts;
    return Some(Precedence(v.core, Some(identifiers)));
  }

  // ---------------------------------------------------------------- comparing

  function CompareNumbers(a: seq<nat>, b: seq<nat>): int {
    if a == [] && b == [] then 0
    else if a == [] then -1
    else if b == [] then 1
    else if a[0] != b[0] then if a[0] < b[0] then -1 else 1
    else CompareNumbers(a[1..], b[1..])
  }

  function Codes(s: string): seq<nat> {
    seq(|s|, i requires 0 <= i < |s| => s[i] as int)
  }

  function CompareIdentifier(a: Identifier, b: Identifier): int {
    match (a, b)
    case (Numeric(m), Numeric(n)) => if m == n then 0 else if m < n then -1 else 1
    case (Numeric(_), Alphanumeric(_)) => -1
    case (Alphanumeric(_), Numeric(_)) => 1
    case (Alphanumeric(s), Alphanumeric(t)) => CompareNumbers(Codes(s), Codes(t))
  }

  function CompareIdentifiers(a: seq<Identifier>, b: seq<Identifier>): int {
    if a == [] && b == [] then 0
    else if a == [] then -1
    else if b == [] then 1
    else if a[0] != b[0] then CompareIdentifier(a[0], b[0])
    else CompareIdentifiers(a[1..], b[1..])
  }

  function Compare(a: Precedence, b: Precedence): int {
    if a.core != b.core then CompareNumbers(a.core, b.core)
    else if a.prerelease == b.prerelease then 0
    else if a.prerelease.None? then 1
    else if b.prerelease.None? then -1
    else CompareIdentifiers(a.prerelease.value, b.prerelease.value)
  }

  lemma PrefixLeavesSomething(a: seq<Identifier>, b: seq<Identifier>, i: nat)
    requires a != b && i <= |a| && i <= |b| && a[..i] == b[..i]
    ensures i < |a| || i < |b|
  {
    assert a[..|a|] == a && b[..|b|] == b;
  }

  method ComparePrerelease(a: seq<Identifier>, b: seq<Identifier>) returns (r: int)
    requires a != b
    ensures r == CompareIdentifiers(a, b)
  {
    var i := 0;
    while i < |a| && i < |b|
      invariant 0 <= i <= |a| && i <= |b|
      invariant a[..i] == b[..i]
      invariant CompareIdentifiers(a[i..], b[i..]) == CompareIdentifiers(a, b)
    {
      assert a[i..][1..] == a[i + 1..] && b[i..][1..] == b[i + 1..];
      if a[i] != b[i] {
        return CompareIdentifier(a[i], b[i]);
      }
      i := i + 1;
    }
    PrefixLeavesSomething(a, b, i);
    return if |a| < |b| then -1 else 1;
  }

  method CompareSemver(left: Version, right: Version) returns (r: Option<int>)
    ensures r == if KeyOf(left).Some? && KeyOf(right).Some? then Some(Compare(KeyOf(left).value, KeyOf(right).value)) else None
  {
    var l := SemverPrecedence(left);
    var m := SemverPrecedence(right);
    if l.None? || m.None? {
      return None;
    }
    var a, b := l.value, m.value;
    if a.core != b.core {
      return Some(CompareNumbers(a.core, b.core));
    }
    if a.prerelease == b.prerelease {
      return Some(0);
    }
    if a.prerelease.None? {
      return Some(1);
    }
    if b.prerelease.None? {
      return Some(-1);
    }
    var c := ComparePrerelease(a.prerelease.value, b.prerelease.value);
    return Some(c);
  }

  // ---------------------------------------------------------------- orders

  lemma {:induction false} NumbersAntisymmetric(a: seq<nat>, b: seq<nat>)
    ensures CompareNumbers(a, b) == -CompareNumbers(b, a)
    ensures CompareNumbers(a, b) == 0 <==> a == b
  {
    if a != [] && b != [] && a[0] == b[0] {
      NumbersAntisymmetric(a[1..], b[1..]);
      assert a == [a[0]] + a[1..] && b == [b[0]] + b[1..];
    }
  }

  lemma {:induction false} NumbersTransitive(a: seq<nat>, b: seq<nat>, c: seq<nat>)
    requires CompareNumbers(a, b) < 0 && CompareNumbers(b, c) < 0
    ensures CompareNumbers(a, c) < 0
  {
    if a != [] && b != [] && c != [] && a[0] == b[0] && b[0] == c[0] {
      NumbersTransitive(a[1..], b[1..], c[1..]);
    }
  }

  lemma CodesInjective(s: string, t: string)
    ensures Codes(s) == Codes(t) <==> s == t
  {
    if Codes(s) == Codes(t) {
      assert |Codes(s)| == |Codes(t)|;
      forall i | 0 <= i < |s|
        ensures s[i] == t[i]
      {
        assert Codes(s)[i] == Codes(t)[i];
      }
    }
  }

  lemma IdentifierAntisymmetric(a: Identifier, b: Identifier)
    ensures CompareIdentifier(a, b) == -CompareIdentifier(b, a)
    ensures CompareIdentifier(a, b) == 0 <==> a == b
  {
    if a.Alphanumeric? && b.Alphanumeric? {
      NumbersAntisymmetric(Codes(a.text), Codes(b.text));
      CodesInjective(a.text, b.text);
    }
  }

  lemma IdentifierTransitive(a: Identifier, b: Identifier, c: Identifier)
    requires CompareIdentifier(a, b) < 0 && CompareIdentifier(b, c) < 0
    ensures CompareIdentifier(a, c) < 0
  {
    if a.Alphanumeric? && b.Alphanumeric? && c.Alphanumeric? {
      NumbersTransitive(Codes(a.text), Codes(b.text), Codes(c.text));
    }
  }

  lemma {:induction false} IdentifiersAntisymmetric(a: seq<Identifier>, b: seq<Identifier>)
    ensures CompareIdentifiers(a, b) == -CompareIdentifiers(b, a)
    ensures CompareIdentifiers(a, b) == 0 <==> a == b
  {
    if a != [] && b != [] {
      IdentifierAntisymmetric(a[0], b[0]);
      IdentifiersAntisymmetric(a[1..], b[1..]);
      assert a == [a[0]] + a[1..] && b == [b[0]] + b[1..];
    }
  }

  lemma {:induction false} IdentifiersTransitive(a: seq<Identifier>, b: seq<Identifier>, c: seq<Identifier>)
    requires CompareIdentifiers(a, b) < 0 && CompareIdentifiers(b, c) < 0
    ensures CompareIdentifiers(a, c) < 0
  {
    if a != [] && b != [] && c != [] {
      if a[0] == b[0] && b[0] == c[0] {
        IdentifiersTransitive(a[1..], b[1..], c[1..]);
      } else if a[0] != b[0] && b[0] != c[0] {
        IdentifierTransitive(a[0], b[0], c[0]);
        IdentifierAntisymmetric(a[0], c[0]);
      }
    }
  }

  /** The comparison has antisymmetric sign and is zero exactly when core and prerelease agree. */
  lemma CompareIsAntisymmetric(a: Precedence, b: Precedence)
    ensures Compare(a, b) == -Compare(b, a)
    ensures Compare(a, b) == 0 <==> a == b
  {
    NumbersAntisymmetric(a.core, b.core);
    if a.prerelease.Some? && b.prerelease.Some? {
      IdentifiersAntisymmetric(a.prerelease.value, b.prerelease.value);
    }
  }

  lemma CompareIsTransitive(a: Precedence, b: Precedence, c: Precedence)
    requires Compare(a, b) < 0 && Compare(b, c) < 0
    ensures Compare(a, c) < 0
  {
    if a.core != b.core && b.core != c.core {
      NumbersTransitive(a.core, b.core, c.core);
      NumbersAntisymmetric(a.core, c.core);
    } else if a.core == b.core && b.core == c.core {
      if a.prerelease.Some? && b.prerelease.Some? && c.prerelease.Some? {
        IdentifiersTransitive(a.prerelease.value, b.prerelease.value, c.prerelease.value);
        IdentifiersAntisymmetric(a.prerelease.value, c.prerelease.value);
      }
    }
  }

  // ---------------------------------------------------------------- item 11 of Semantic Versioning 2.0.0

  /** 11.4: numeric below alphanumeric, numbers numerically, text by its first differing code. */
  ghost predicate FieldBelow(a: Identifier, b: Identifier) {
    match (a, b)
    case (Numeric(m), Numeric(n)) => m < n
    case (Numeric(_), Alphanumeric(_)) => true
    case (Alphanumeric(_), Numeric(_)) => false
    case (Alphanumeric(s), Alphanumeric(t)) =>
      || (|s| < |t| && s == t[..|s|])
      || (exists k :: 0 <= k < |s| && k < |t| && s[..k] == t[..k] && s[k] < t[k])
  }

  /** The first field that differs decides; if none does, the shorter list is below. */
  ghost predicate FieldsBelow(a: seq<Identifier>, b: seq<Identifier>) {
    || (|a| < |b| && a == b[..|a|])
    || (exists k :: 0 <= k < |a| && k < |b| && a[..k] == b[..k] && a[k] != b[k] && FieldBelow(a[k], b[k]))
  }

  ghost predicate CoreBelow(a: seq<nat>, b: seq<nat>)
    requires |a| == 3 && |b| == 3
  {
    a[0] < b[0] || (a[0] == b[0] && (a[1] < b[1] || (a[1] == b[1] && a[2] < b[2])))
  }

  ghost predicate Below(a: Precedence, b: Precedence)
    requires |a.core| == 3 && |b.core| == 3
  {
    || CoreBelow(a.core, b.core)
    || (a.core == b.core && a.prerelease.Some? &&
        (b.prerelease.None? || FieldsBelow(a.prerelease.value, b.prerelease.value)))
  }

  /** What a lexicographic comparison of number lists means. */
  ghost predicate NumbersBelow(a: seq<nat>, b: seq<nat>) {
    || (|a| < |b| && a == b[..|a|])
    || (exists k :: 0 <= k < |a| && k < |b| && a[..k] == b[..k] && a[k] < b[k])
  }

  lemma {:induction false} NumbersMeaning(a: seq<nat>, b: seq<nat>)
    ensures CompareNumbers(a, b) < 0 <==> NumbersBelow(a, b)
  {
    if a != [] && b != [] {
      if a[0] == b[0] {
        NumbersMeaning(a[1..], b[1..]);
        assert a == [a[0]] + a[1..] && b == [b[0]] + b[1..];
        if NumbersBelow(a[1..], b[1..]) {
          if k :| 0 <= k < |a[1..]| && k < |b[1..]| && a[1..][..k] == b[1..][..k] && a[1..][k] < b[1..][k] {
            assert a[..k + 1] == [a[0]] + a[1..][..k] && b[..k + 1] == [b[0]] + b[1..][..k];
            assert a[k + 1] < b[k + 1];
          } else {
            assert b[..|a|] == [b[0]] + b[1..][..|a[1..]|];
          }
        }
        if NumbersBelow(a, b) {
          if k :| 0 <= k < |a| && k < |b| && a[..k] == b[..k] && a[k] < b[k] {
            assert a[1..][..k - 1] == a[..k][1..] && b[1..][..k - 1] == b[..k][1..];
            assert a[1..][k - 1] < b[1..][k - 1];
          } else {
            assert b[1..][..|a[1..]|] == b[..|a|][1..];
          }
        }
      } else if a[0] < b[0] {
        assert a[..0] == b[..0];
      } else {
        assert forall k :: 0 < k <= |a| && k <= |b| ==> a[..k][0] == a[0] && b[..k][0] == b[0];
      }
    }
  }

  lemma FieldMeaning(a: Identifier, b: Identifier)
    ensures CompareIdentifier(a, b) < 0 <==> FieldBelow(a, b)
  {
    if a.Alphanumeric? && b.Alphanumeric? {
      var s, t := a.text, b.text;
      NumbersMeaning(Codes(s), Codes(t));
      forall k | 0 <= k <= |s| && k <= |t|
        ensures Codes(s)[..k] == Codes(t)[..k] <==> s[..k] == t[..k]
      {
        CodesInjective(s[..k], t[..k]);
        assert Codes(s)[..k] == Codes(s[..k]) && Codes(t)[..k] == Codes(t[..k]);
      }
      assert Codes(s)[..|s|] == Codes(s) && s[..|s|] == s;
      if NumbersBelow(Codes(s), Codes(t)) && !(|s| < |t| && s == t[..|s|]) {
        var k :| 0 <= k < |s| && k < |t| && Codes(s)[..k] == Codes(t)[..k] && Codes(s)[k] < Codes(t)[k];
        assert s[..k] == t[..k] && s[k] < t[k];
      }
      if FieldBelow(a, b) && !(|s| < |t| && s == t[..|s|]) {
        var k :| 0 <= k < |s| && k < |t| && s[..k] == t[..k] && s[k] < t[k];
        assert Codes(s)[..k] == Codes(t)[..k] && Codes(s)[k] < Codes(t)[k];
      }
    }
  }

  lemma {:induction false} FieldsMeaning(a: seq<Identifier>, b: seq<Identifier>)
    ensures CompareIdentifiers(a, b) < 0 <==> FieldsBelow(a, b)
  {
    if a != [] && b != [] {
      FieldMeaning(a[0], b[0]);
      if a[0] == b[0] {
        FieldsMeaning(a[1..], b[1..]);
        assert a == [a[0]] + a[1..] && b == [b[0]] + b[1..];
        if FieldsBelow(a[1..], b[1..]) {
          FieldsBelowLonger(a, b);
        }
        if FieldsBelow(a, b) {
          FieldsBelowShorter(a, b);
        }
      } else {
        assert a[..0] == b[..0];
        assert forall k :: 0 < k <= |a| && k <= |b| ==> a[..k][0] == a[0] && b[..k][0] == b[0];
      }
    }
  }

  lemma FieldsBelowLonger(a: seq<Identifier>, b: seq<Identifier>)
    requires a != [] && b != [] && a[0] == b[0] && FieldsBelow(a[1..], b[1..])
    ensures FieldsBelow(a, b)
  {
    var x, y := a[1..], b[1..];
    if k :| 0 <= k < |x| && k < |y| && x[..k] == y[..k] && x[k] != y[k] && FieldBelow(x[k], y[k]) {
      assert a[..k + 1] == [a[0]] + x[..k] && b[..k + 1] == [b[0]] + y[..k];
      assert a[k + 1] != b[k + 1] && FieldBelow(a[k + 1], b[k + 1]);
    } else {
      assert a == [a[0]] + x && b[..|a|] == [b[0]] + y[..|x|];
    }
  }

  lemma FieldsBelowShorter(a: seq<Identifier>, b: seq<Identifier>)
    requires a != [] && b != [] && a[0] == b[0] && FieldsBelow(a, b)
    ensures FieldsBelow(a[1..], b[1..])
  {
    var x, y := a[1..], b[1..];
    if k :| 0 <= k < |a| && k < |b| && a[..k] == b[..k] && a[k] != b[k] && FieldBelow(a[k], b[k]) {
      assert x[..k - 1] == a[..k][1..] && y[..k - 1] == b[..k][1..];
      assert x[k - 1] != y[k - 1] && FieldBelow(x[k - 1], y[k - 1]);
    } else {
      assert y[..|x|] == b[..|a|][1..];
    }
  }

  lemma CoreMeaning(a: seq<nat>, b: seq<nat>)
    requires |a| == 3 && |b| == 3
    ensures CompareNumbers(a, b) < 0 <==> CoreBelow(a, b)
  {
    var a', b' := a[1..], b[1..];
    var a'', b'' := a'[1..], b'[1..];
    assert CompareNumbers(a''[1..], b''[1..]) == 0;
    assert CompareNumbers(a'', b'') < 0 <==> a[2] < b[2];
    assert CompareNumbers(a', b') < 0 <==> a[1] < b[1] || (a[1] == b[1] && a[2] < b[2]);
  }

  /** The script's comparison is exactly the precedence of item 11 of Semantic Versioning 2.0.0. */
  lemma CompareMatchesSpecification(left: Version, right: Version)
    requires ValidVersion(left) && ValidVersion(right)
    ensures Compare(KeyOf(left).value, KeyOf(right).value) < 0 <==> Below(KeyOf(left).value, KeyOf(right).value)
    ensures Compare(KeyOf(left).value, KeyOf(right).value) == 0 <==> KeyOf(left) == KeyOf(right)
  {
    var a, b := KeyOf(left).value, KeyOf(right).value;
    CompareIsAntisymmetric(a, b);
    CoreMeaning(a.core, b.core);
    if a.prerelease.Some? && b.prerelease.Some? {
      FieldsMeaning(a.prerelease.value, b.prerelease.value);
      IdentifiersAntisymmetric(a.prerelease.value, b.prerelease.value);
    }
  }

  /** What an identifier is: a number if it is all digits, else its text. */
  predicate ReadsAs(part: string, id: Identifier) {
    if AllDigits(part) then id == Numeric(Number(part)) else id == Alphanumeric(part)
  }

  predicate LeadingZero(part: string) {
    |part| > 1 && part[0] == '0' && forall i :: 0 <= i < |part| ==> '0' <= part[i] <= '9'
  }

  lemma {:induction false} IdentifiersExactly(parts: seq<string>)
    ensures ParseIdentifiers(parts).Some? <==> forall i :: 0 <= i < |parts| ==> !LeadingZero(parts[i])
    ensures ParseIdentifiers(parts).Some? ==>
              var ids := ParseIdentifiers(parts).value;
              |ids| == |parts| && forall i :: 0 <= i < |parts| ==> ReadsAs(parts[i], ids[i])
  {
    if parts != [] {
      var earlier, last := parts[..|parts| - 1], parts[|parts| - 1];
      IdentifiersExactly(earlier);
      assert parts == earlier + [last];
      assert forall i :: 0 <= i < |earlier| ==> earlier[i] == parts[i];
      assert ParseIdentifier(last).Some? <==> !LeadingZero(last);
    }
  }

  /** A version has a key if and only if no numeric identifier has a leading zero; the key reads each identifier. */
  lemma KeysExactly(v: Version)
    ensures KeyOf(v).Some? <==>
              (v.prerelease.Some? ==> forall i :: 0 <= i < |v.prerelease.value| ==> !LeadingZero(v.prerelease.value[i]))
    ensures KeyOf(v).Some? ==>
              && KeyOf(v).value.core == v.core && KeyOf(v).value.prerelease.Some? == v.prerelease.Some?
              && (v.prerelease.Some? ==>
                    var parts, ids := v.prerelease.value, KeyOf(v).value.prerelease.value;
                    |ids| == |parts| && forall i :: 0 <= i < |parts| ==> ReadsAs(parts[i], ids[i]))
  {
    if v.prerelease.Some? {
      IdentifiersExactly(v.prerelease.value);
    }
  }

  /** Build metadata never matters. */
  lemma BuildMetadataIsIgnored(v: Version, w: Version, build: string)
    requires ValidVersion(v) && ValidVersion(w)
    ensures KeyOf(v.(build := build)) == KeyOf(v)
    ensures Compare(KeyOf(v.(build := build)).value, KeyOf(w).value) == Compare(KeyOf(v).value, KeyOf(w).value)
  {
  }

  // ---------------------------------------------------------------- numbers

  function Power10(n: nat): nat {
    if n == 0 then 1 else 10 * Power10(n - 1)
  }

  predicate Digits(s: string) {
    forall i :: 0 <= i < |s| ==> IsDigit(s[i])
  }

  /** As the identifiers of a version write numbers: some digits, no leading zero. */
  predicate PlainNumber(s: string) {
    AllDigits(s) && (|s| > 1 ==> s[0] != '0')
  }

  lemma {:induction false} NumberIsBounded(s: string)
    requires Digits(s)
    ensures Number(s) < Power10(|s|)
    ensures s != "" && s[0] != '0' ==> Number(s) >= Power10(|s| - 1)
  {
    if |s| > 1 {
      NumberIsBounded(s[..|s| - 1]);
    } else if |s| == 1 {
      assert s[..0] == "" && Power10(1) == 10 * Power10(0);
    }
  }

  lemma {:induction false} Power10Grows(m: nat, n: nat)
    requires m <= n
    ensures Power10(m) <= Power10(n)
  {
    if m < n {
      Power10Grows(m, n - 1);
    }
  }

  predicate DigitsBelow(s: string, t: string)
    requires |s| == |t|
  {
    exists k :: 0 <= k < |s| && s[..k] == t[..k] && s[k] < t[k]
  }

  /** The last digit matters only if the earlier ones agree. */
  lemma DigitsBelowLast(s: string, t: string)
    requires |s| == |t| && s != ""
    ensures var n := |s| - 1;
            DigitsBelow(s, t) <==> DigitsBelow(s[..n], t[..n]) || (s[..n] == t[..n] && s[n] < t[n])
  {
    var n := |s| - 1;
    if k :| 0 <= k < |s| && s[..k] == t[..k] && s[k] < t[k] {
      if k < n {
        assert s[..n][..k] == s[..k] && t[..n][..k] == t[..k] && s[..n][k] < t[..n][k];
      }
    }
    if k :| 0 <= k < n && s[..n][..k] == t[..n][..k] && s[..n][k] < t[..n][k] {
      assert s[..k] == s[..n][..k] && t[..k] == t[..n][..k] && s[k] < t[k];
    }
  }

  lemma {:induction false} EquallyLongNumbers(s: string, t: string)
    requires Digits(s) && Digits(t) && |s| == |t|
    ensures Number(s) < Number(t) <==> DigitsBelow(s, t)
    ensures Number(s) == Number(t) <==> s == t
  {
    hide DigitsBelow;
    if s == "" {
      EmptyIsNotBelow();
    } else {
      var n := |s| - 1;
      EquallyLongNumbers(s[..n], t[..n]);
      DigitsBelowLast(s, t);
      assert s == s[..n] + [s[n]] && t == t[..n] + [t[n]];
    }
  }

  lemma EmptyIsNotBelow()
    ensures !DigitsBelow("", "")
  {
  }

  /** Numeric identifiers compare as decimal numbers do: the longer is the larger, else the first digit that differs decides. */
  lemma NumbersCompareAsDecimals(s: string, t: string)
    requires PlainNumber(s) && PlainNumber(t)
    ensures Number(s) < Number(t) <==> |s| < |t| || (|s| == |t| && DigitsBelow(s, t))
  {
    NumberIsBounded(s);
    NumberIsBounded(t);
    if |s| == |t| {
      EquallyLongNumbers(s, t);
    } else if |s| < |t| {
      Power10Grows(|s|, |t| - 1);
    } else {
      Power10Grows(|t|, |s| - 1);
    }
  }

  /** The ten digits are the ten smallest numbers. */
  lemma OneDigit(c: char)
    requires IsDigit(c)
    ensures Number([c]) == c as int - '0' as int
  {
    assert [c][..0] == "";
  }

  // ---------------------------------------------------------------- the registry tag

  datatype TagDecision = Missing | Exact | Advance | Refuse

  /** check_npm_tag once the registry's answer is known. */
  function CheckTag(remote: Option<Version>, version: Version): TagDecision {
    if remote.None? then Missing
    else if remote.value == version then Exact
    else if KeyOf(remote.value).None? || KeyOf(version).None? then Refuse
    else if Compare(KeyOf(remote.value).value, KeyOf(version).value) < 0 then Advance
    else Refuse
  }

  /** The tag may advance if and only if both versions are valid and the new one has higher precedence. */
  lemma TagDecisionIsExact(remote: Option<Version>, version: Version)
    requires |version.core| == 3 && (remote.Some? ==> |remote.value.core| == 3)
    requires (version.prerelease.Some? ==> version.prerelease.value != [])
             && (remote.Some? && remote.value.prerelease.Some? ==> remote.value.prerelease.value != [])
    ensures var decision := CheckTag(remote, version);
            && (decision == Missing <==> remote.None?)
            && (decision == Exact <==> remote == Some(version))
            && (decision == Advance <==>
                  && remote.Some? && remote.value != version && KeyOf(remote.value).Some? && KeyOf(version).Some?
                  && Below(KeyOf(remote.value).value, KeyOf(version).value))
  {
    if remote.Some? && KeyOf(remote.value).Some? && KeyOf(version).Some? {
      CompareMatchesSpecification(remote.value, version);
    }
  }

  /** Successive values of a tag that only ever moves when the check says so. */
  predicate TagHistory(tags: seq<Version>) {
    forall i :: 0 <= i < |tags| - 1 ==> CheckTag(Some(tags[i]), tags[i + 1]) == Advance
  }

  /** Any sequence of allowed moves strictly increases precedence, so no version is ever revisited. */
  lemma {:induction false} TagOnlyMovesForward(tags: seq<Version>, i: nat, j: nat)
    requires TagHistory(tags) && i < j < |tags|
    ensures KeyOf(tags[i]).Some? && KeyOf(tags[j]).Some?
    ensures Compare(KeyOf(tags[i]).value, KeyOf(tags[j]).value) < 0
    ensures tags[i] != tags[j] && CheckTag(Some(tags[j]), tags[i]) == Refuse
    decreases j - i
  {
    assert CheckTag(Some(tags[j - 1]), tags[j]) == Advance;
    if i < j - 1 {
      TagOnlyMovesForward(tags, i, j - 1);
      CompareIsTransitive(KeyOf(tags[i]).value, KeyOf(tags[j - 1]).value, KeyOf(tags[j]).value);
    }
    BackwardMoveIsRefused(tags[i], tags[j]);
  }

  lemma BackwardMoveIsRefused(lower: Version, higher: Version)
    requires KeyOf(lower).Some? && KeyOf(higher).Some?
    requires Compare(KeyOf(lower).value, KeyOf(higher).value) < 0
    ensures lower != higher && CheckTag(Some(higher), lower) == Refuse
  {
    CompareIsAntisymmetric(KeyOf(lower).value, KeyOf(higher).value);
    assert Compare(KeyOf(higher).value, KeyOf(lower).value) > 0;
  }
}
