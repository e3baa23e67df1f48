/** Dotted versions and the installer's rule against downgrades. */
module Versions {

  predicate Digit(c: char) { '0' <= c <= '9' }

  /** The number a component stands for: its digits, whatever else it holds. */
  function Number(s: string, acc: nat): nat
  {
    if s == "" || s[0] == '.' then acc
    else Number(s[1..], if Digit(s[0]) then acc * 10 + (s[0] as int - '0' as int) else acc)
  }

  /** The length of the first component. */
  function Dot(s: string): (n: nat)
    ensures n <= |s| && (n < |s| ==> s[n] == '.') && forall i :: 0 <= i < n ==> s[i] != '.'
  {
    if s == "" || s[0] == '.' then 0 else 1 + Dot(s[1..])
  }

  /** What is left behind the first component and its dot. */
  function Behind(s: string): string
  {
    if Dot(s) < |s| then s[Dot(s) + 1..] else ""
  }

  /** The numbers of a version, component by component. */
  function Components(s: string): seq<nat>
    decreases |s|
  {
    if s == "" then [] else [Number(s, 0)] + Components(Behind(s))
  }

  /** A component; those past the end count as zero. */
  function At(v: seq<nat>, k: nat): nat { if k < |v| then v[k] else 0 }

  /** Lexicographic order on zero-padded component lists. */
  ghost predicate Less(u: seq<nat>, v: seq<nat>)
  {
    exists k: nat :: LessAt(u, v, k)
  }

  ghost predicate LessAt(u: seq<nat>, v: seq<nat>, k: nat)
  {
    At(u, k) < At(v, k) && forall j: nat :: j < k ==> At(u, j) == At(v, j)
  }

  ghost predicate Same(u: seq<nat>, v: seq<nat>)
  {
    forall k: nat :: At(u, k) == At(v, k)
  }

  /** The order is total: exactly one of the three holds. */
  lemma Trichotomy(u: seq<nat>, v: seq<nat>)
    ensures Less(u, v) || Same(u, v) || Less(v, u)
    ensures !(Less(u, v) && Same(u, v)) && !(Less(u, v) && Less(v, u)) && !(Same(u, v) && Less(v, u))
  {
    if !Same(u, v) {
      var k: nat :| At(u, k) != At(v, k);
      FirstDifference(u, v, k);
    }
    forall i: nat, j: nat | LessAt(u, v, i) && LessAt(v, u, j)
      ensures false
    {
    }
  }

  lemma {:induction false} FirstDifference(u: seq<nat>, v: seq<nat>, k: nat)
    requires At(u, k) != At(v, k)
    ensures Less(u, v) || Less(v, u)
  {
    if j: nat :| j < k && At(u, j) != At(v, j) {
      FirstDifference(u, v, j);
    } else {
      assert LessAt(u, v, k) || LessAt(v, u, k);
    }
  }

  /** Nothing that is not less stays so under composition: the order is transitive, across
      differently written equal versions too. */
  lemma Transitive(u: seq<nat>, v: seq<nat>, w: seq<nat>)
    requires !Less(v, u) && !Less(w, v)
    ensures !Less(w, u)
  {
    Trichotomy(u, v);
    Trichotomy(v, w);
    Trichotomy(u, w);
    if Less(u, v) && Less(v, w) {
      var i: nat :| LessAt(u, v, i);
      var j: nat :| LessAt(v, w, j);
      assert LessAt(u, w, if i < j then i else j);
    } else if Less(u, v) {
      var i: nat :| LessAt(u, v, i);
      assert LessAt(u, w, i);
    } else if Less(v, w) {
      var j: nat :| LessAt(v, w, j);
      assert LessAt(u, w, j);
    } else {
      assert Same(u, w);
    }
  }

  // ---------------------------------------------------------------- what the numbers are

  function DigitOf(d: nat): char
    requires d < 10
  {
    '0' + d as char
  }

  /** A number in decimal. */
  function Decimal(n: nat): (s: string)
    ensures s != "" && forall i :: 0 <= i < |s| ==> Digit(s[i])
  {
    if n < 10 then [DigitOf(n)] else Decimal(n / 10) + [DigitOf(n % 10)]
  }

  /** A version as it is written: decimal numbers with dots between them. */
  function Written(v: seq<nat>): string
  {
    if v == [] then "" else Decimal(v[0]) + if |v| == 1 then "" else "." + Written(v[1..])
  }

  lemma {:induction false} NumberOfDigits(s: string, rest: string, acc: nat)
    requires forall i :: 0 <= i < |s| ==> s[i] != '.'
    ensures Number(s + rest, acc) == Number(rest, Number(s, acc))
  {
    if s == "" {
      assert s + rest == rest;
    } else {
      assert (s + rest)[1..] == s[1..] + rest;
      NumberOfDigits(s[1..], rest, if Digit(s[0]) then acc * 10 + (s[0] as int - '0' as int) else acc);
    }
  }

  lemma {:induction false} DecimalReads(n: nat)
    ensures Number(Decimal(n), 0) == n
  {
    if n >= 10 {
      var d := [DigitOf(n % 10)];
      DecimalReads(n / 10);
      NumberOfDigits(Decimal(n / 10), d, 0);
      assert d[1..] == "";
      assert Number(d, n / 10) == n / 10 * 10 + n % 10;
    } else {
      assert Decimal(n)[1..] == "";
    }
  }

  /** A version reads back as the numbers it is written with. */
  lemma {:induction false} WrittenReads(v: seq<nat>)
    ensures Components(Written(v)) == v
  {
    if v != [] {
      WrittenReads(v[1..]);
      assert v == [v[0]] + v[1..];
      DecimalReads(v[0]);
      assert Components("") == [];
      hide Written;
      hide Components;
      hide Decimal;
      hide Number;
      hide Behind;
      var rest := if |v| == 1 then "" else "." + Written(v[1..]);
      DotEnds(Decimal(v[0]), rest);
      assert |v| > 1 ==> rest[1..] == Written(v[1..]);
    }
  }

  /** The first component of a text that begins with digits. */
  lemma DotEnds(d: string, rest: string)
    requires d != "" && (forall i :: 0 <= i < |d| ==> d[i] != '.') && (rest == "" || rest[0] == '.')
    ensures var s := d + rest;
            s != "" && Number(s, 0) == Number(d, 0) && Behind(s) == (if rest == "" then "" else rest[1..])
            && Components(s) == [Number(d, 0)] + Components(Behind(s))
  {
    NumberOfDigits(d, rest, 0);
    EndOfNumber(rest, Number(d, 0));
    BehindIs(d, rest);
    ComponentsAre(d + rest);
    hide *;
  }

  lemma EndOfNumber(rest: string, acc: nat)
    requires rest == "" || rest[0] == '.'
    ensures Number(rest, acc) == acc
  {
  }

  lemma BehindIs(d: string, rest: string)
    requires (forall i :: 0 <= i < |d| ==> d[i] != '.') && (rest == "" || rest[0] == '.')
    ensures Behind(d + rest) == if rest == "" then "" else rest[1..]
  {
    var s := d + rest;
    assert forall i :: 0 <= i < |d| ==> s[i] == d[i];
    assert rest != "" ==> s[|d|] == '.';
    assert Dot(s) == |d|;
    hide Dot;
    if rest != "" {
      assert s[|d| + 1..] == rest[1..];
    }
  }

  /** Characters that are no digits do not count. */
  lemma {:induction false} OthersIgnored(a: string, c: char, b: string, acc: nat)
    requires !Digit(c) && c != '.'
    ensures Number(a + [c] + b, acc) == Number(a + b, acc)
  {
    if a == "" {
      assert a + [c] + b == [c] + b && ([c] + b)[1..] == b && a + b == b;
    } else if a[0] != '.' {
      assert (a + [c] + b)[1..] == a[1..] + [c] + b && (a + b)[1..] == a[1..] + b;
      OthersIgnored(a[1..], c, b, if Digit(a[0]) then acc * 10 + (a[0] as int - '0' as int) else acc);
    }
  }

  lemma AtComponents(s: string, k: nat)
    ensures At(Components(s), 0) == Number(s, 0)
    ensures At(Components(s), k + 1) == At(Components(Behind(s)), k)
  {
    hide Dot;
    if s == "" {
      assert Behind(s) == "" && Number(s, 0) == 0;
    } else {
      ComponentsAre(s);
      hide Number;
      hide Components;
    }
    hide Behind;
  }

  lemma ComponentsAre(s: string)
    requires s != ""
    ensures Components(s) == [Number(s, 0)] + Components(Behind(s))
  {
    hide Number;
    hide Behind;
  }

  /** One component from place `i` on, and the place behind its dot. */
  method NextComponent(s: string, i: nat) returns (value: nat, j: nat)
    requires i <= |s|
    ensures value == Number(s[i..], 0)
    ensures i <= j <= |s| && s[j..] == Behind(s[i..]) && (i < |s| ==> i < j)
  {
    value, j := 0, i;
    while j < |s| && s[j] != '.'
      invariant i <= j <= |s|
      invariant Number(s[i..], 0) == Number(s[j..], value)
      invariant forall k :: i <= k < j ==> s[k] != '.'
    {
      assert s[j..][1..] == s[j + 1..] && s[j..][0] == s[j];
      if Digit(s[j]) {
        value := value * 10 + (s[j] as int - '0' as int);
      }
      j := j + 1;
    }
    DotAt(s, i, j);
    if j < |s| {
      j := j + 1;
    }
  }

  lemma DotAt(s: string, i: nat, j: nat)
    requires i <= j <= |s| && (j < |s| ==> s[j] == '.') && forall k :: i <= k < j ==> s[k] != '.'
    ensures Behind(s[i..]) == if j < |s| then s[j + 1..] else ""
    ensures j < |s| ==> s[j..][0] == '.'
  {
    var t := s[i..];
    assert Dot(t) == j - i by {
      assert forall k :: 0 <= k < j - i ==> t[k] == s[i + k];
    }
  }

  /** The components of `s` are those of `u` from `n` on. */
  ghost predicate Aligned(u: seq<nat>, n: nat, s: string)
  {
    forall k: nat :: At(Components(s), k) == At(u, n + k)
  }

  lemma AlignedNext(u: seq<nat>, n: nat, s: string)
    requires Aligned(u, n, s)
    ensures Number(s, 0) == At(u, n) && Aligned(u, n + 1, Behind(s))
  {
    AtComponents(s, 0);
    assert At(Components(s), 0) == At(u, n + 0);
    forall k: nat
      ensures At(Components(Behind(s)), k) == At(u, n + 1 + k)
    {
      AtComponents(s, k);
      assert At(Components(s), k + 1) == At(u, n + (k + 1));
    }
  }

  lemma AlignedEnd(u: seq<nat>, n: nat, k: nat)
    requires Aligned(u, n, "") && n <= k
    ensures At(u, k) == 0
  {
    assert At(Components(""), k - n) == At(u, n + (k - n));
  }

  /** After `n` equal components, `s` and `t` are left to compare. */
  ghost predicate Level(u: seq<nat>, v: seq<nat>, n: nat, s: string, t: string)
  {
    Aligned(u, n, s) && Aligned(v, n, t) && forall k: nat :: k < n ==> At(u, k) == At(v, k)
  }

  lemma LevelNext(u: seq<nat>, v: seq<nat>, n: nat, s: string, t: string)
    requires Level(u, v, n, s, t)
    ensures Number(s, 0) == Number(t, 0) ==> Level(u, v, n + 1, Behind(s), Behind(t))
    ensures Number(s, 0) < Number(t, 0) ==> Less(u, v)
    ensures Number(s, 0) > Number(t, 0) ==> Less(v, u)
  {
    AlignedNext(u, n, s);
    AlignedNext(v, n, t);
    hide Aligned;
    if Number(s, 0) < Number(t, 0) {
      assert LessAt(u, v, n);
    } else if Number(s, 0) > Number(t, 0) {
      assert LessAt(v, u, n);
    }
  }

  lemma LevelEnd(u: seq<nat>, v: seq<nat>, n: nat)
    requires Level(u, v, n, "", "")
    ensures Same(u, v)
  {
    forall k: nat
      ensures At(u, k) == At(v, k)
    {
      if k >= n {
        AlignedEnd(u, n, k);
        AlignedEnd(v, n, k);
      }
    }
  }

  lemma LevelStart(a: string, b: string)
    ensures Level(Components(a), Components(b), 0, a, b)
  {
  }

  /** Compare two versions: negative, zero or positive as the first is less, the same or greater. */
  method VersionCmp(a: string, b: string) returns (r: int)
    ensures r < 0 <==> Less(Components(a), Components(b))
    ensures r == 0 <==> Same(Components(a), Components(b))
    ensures r > 0 <==> Less(Components(b), Components(a))
  {
    hide *;
    ghost var u, v := Components(a), Components(b);
    ghost var n: nat := 0;
    var i, j := 0, 0;
    assert a[0..] == a && b[0..] == b;
    LevelStart(a, b);
    Trichotomy(u, v);
    while i < |a| || j < |b|
      invariant i <= |a| && j <= |b|
      invariant Level(u, v, n, a[i..], b[j..])
      decreases |a| - i + |b| - j
    {
      LevelNext(u, v, n, a[i..], b[j..]);
      var va, vb;
      va, i := NextComponent(a, i);
      vb, j := NextComponent(b, j);
      if va != vb {
        return if va < vb then -1 else 1;
      }
      n := n + 1;
    }
    assert a[i..] == "" && b[j..] == "";
    LevelEnd(u, v, n);
    return 0;
  }

  // ---------------------------------------------------------------- installing

  /** A package that has passed every other check. */
  datatype Package = Package(id: string, version: string)

  /** An update is refused when both versions are known and the new one is less. */
  ghost predicate Refused(installed: map<string, string>, p: Package)
  {
    && p.id in installed && p.version != "" && installed[p.id] != ""
    && Less(Components(p.version), Components(installed[p.id]))
  }

  ghost function Installed(installed: map<string, string>, p: Package): map<string, string>
  {
    if Refused(installed, p) then installed else installed[p.id := p.version]
  }

  ghost function InstalledAll(installed: map<string, string>, ps: seq<Package>): map<string, string>
    decreases |ps|
  {
    if ps == [] then installed else InstalledAll(Installed(installed, ps[0]), ps[1..])
  }

  /** Over any sequence of installs in which every package of an id carries a version, the installed
      version of that id never decreases. */
  lemma {:induction false} NeverDecreases(installed: map<string, string>, ps: seq<Package>, id: string)
    requires id in installed && installed[id] != ""
    requires forall p <- ps :: p.id == id ==> p.version != ""
    ensures var r := InstalledAll(installed, ps);
            id in r && r[id] != "" && !Less(Components(r[id]), Components(installed[id]))
    decreases |ps|
  {
    var was := Components(installed[id]);
    Trichotomy(was, was);
    if ps != [] {
      var next := Installed(installed, ps[0]);
      assert ps[0] in ps && forall p <- ps[1..] :: p in ps;
      NeverDecreases(next, ps[1..], id);
      Transitive(was, Components(next[id]), Components(InstalledAll(next, ps[1..])[id]));
    }
  }

  /** An install lowers a version exactly when the package carries none and the installed one is not
      all zeros. */
  lemma DecreasesExactlyWhen(installed: map<string, string>, p: Package, id: string)
    requires id in installed
    ensures Less(Components(Installed(installed, p)[id]), Components(installed[id])) <==>
            p.id == id && p.version == "" && Less([], Components(installed[id]))
  {
    var was := Components(installed[id]);
    Trichotomy(was, was);
    assert Components("") == [];
    if installed[id] == "" {
      assert !Less(Components(p.version), []);
    }
  }

  /** One package without a version is enough to let an older one in. */
  lemma UnversionedLetsOlderIn(installed: map<string, string>, id: string, older: string)
    requires id in installed && Less(Components(older), Components(installed[id]))
    ensures var r := InstalledAll(installed, [Package(id, ""), Package(id, older)]); id in r && r[id] == older
  {
    var a, b := Package(id, ""), Package(id, older);
    assert [a, b][1..] == [b] && [b][1..] == [];
    var next := Installed(installed, a);
    assert next[id] == "";
    assert InstalledAll(next, [b]) == Installed(next, b);
  }

  class Installer {
    /** The version in each registered manifest. */
    var manifests: map<string, string>

    /** Register a package unless that would be a downgrade. */
    method Install(p: Package) returns (ok: bool)
      modifies this
      ensures ok <==> !Refused(old(manifests), p)
      ensures manifests == Installed(old(manifests), p)
    {
      if p.id in manifests {
        var current := manifests[p.id];
        if p.version != "" && current != "" {
          var c := VersionCmp(p.version, current);
          if c < 0 {
            return false;
          }
        }
      }
      manifests := manifests[p.id := p.version];
      return true;
    }
  }
}
