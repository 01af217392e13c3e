/**
 * Names of immutable configuration versions: `versions/%020d-<sha256>.json` and the
 * `-repair-<nanoseconds>` variant, and the parser that reads version and digest back.
 */
module ConfigNames {
  import opened Common

  const UINT64_LIMIT: nat := 0x1_0000_0000_0000_0000

  type Uint64 = n: nat | n < UINT64_LIMIT

  predicate IsHex(c: char) { '0' <= c <= '9' || 'a' <= c <= 'f' || 'A' <= c <= 'F' }

  predicate IsLowerHex(c: char) { '0' <= c <= '9' || 'a' <= c <= 'f' }

  predicate IsDigest(s: string) { |s| == 64 && forall i :: 0 <= i < 64 ==> IsLowerHex(s[i]) }

  /** A SHA-256 digest in lower-case hexadecimal. */
  type Digest = s: string | IsDigest(s) witness seq(64, _ => '0')

  datatype ConfigTarget = ConfigTarget(version: Uint64, digest: Digest, repair: Option<nat>)

  // ---------------------------------------------------------------- formatting

  function Digit(n: nat): char
    requires n < 10
  {
    '0' + n as char
  }

  /** `%0<width>d` for a number that fits. */
  function Pad(n: nat, width: nat): (s: string)
    ensures |s| == width
    ensures forall i :: 0 <= i < width ==> '0' <= s[i] <= '9'
  {
    if width == 0 then "" else Pad(n / 10, width - 1) + [Digit(n % 10)]
  }

  /** `%d` */
  function Decimal(n: nat): (s: string)
    ensures |s| > 0
    ensures forall i :: 0 <= i < |s| ==> '0' <= s[i] <= '9'
  {
    if n < 10 then [Digit(n)] else Decimal(n / 10) + [Digit(n % 10)]
  }

  function Suffix(t: ConfigTarget): string {
    match t.repair
    case None => ".json"
    case Some(nanos) => "-repair-" + Decimal(nanos) + ".json"
  }

  function FileName(t: ConfigTarget): string {
    Pad(t.version, 20) + "-" + t.digest + Suffix(t)
  }

  function Path(t: ConfigTarget): string { "versions/" + FileName(t) }

  // ---------------------------------------------------------------- parsing

  function Split(s: string, sep: char): (parts: seq<string>)
    ensures |parts| > 0
  {
    if s == "" then [""]
    else
      var rest := Split(s[1..], sep);
      if s[0] == sep then [""] + rest else [[s[0]] + rest[0]] + rest[1..]
  }

  function TrimJson(s: string): string {
    if |s| >= 5 && s[|s| - 5..] == ".json" then s[..|s| - 5] else s
  }

  function DecimalValue(s: string): Option<nat> {
    if s == "" then Some(0)
    else
      var c := s[|s| - 1];
      match DecimalValue(s[..|s| - 1])
      case None => None
      case Some(v) => if '0' <= c <= '9' then Some(10 * v + (c - '0') as nat) else None
  }

  function ParseUint(s: string): Option<nat> {
    if s == "" then None
    else
      match DecimalValue(s)
      case None => None
      case Some(v) => if v < UINT64_LIMIT then Some(v) else None
  }

  function Lower(c: char): char
    requires IsHex(c)
  {
    if 'A' <= c <= 'F' then c - 'A' + 'a' else c
  }

  /** Relative, clean, and exactly one component below `versions/`. */
  predicate ValidTarget(target: string) {
    |target| > 9 && target[..9] == "versions/" && '/' !in target[9..] && target[9..] != "." && target[9..] != ".."
  }

  function Metadata(target: string): (r: Option<(Uint64, string)>)
    ensures r.Some? ==> r.value.0 > 0 && IsDigest(r.value.1)
  {
    if !ValidTarget(target) then None
    else
      var parts := Split(TrimJson(target[9..]), '-');
      if |parts| < 2 || |parts[0]| != 20 || |parts[1]| != 64 then None
      else
        match ParseUint(parts[0])
        case None => None
        case Some(version) =>
          if version == 0 || exists i :: 0 <= i < 64 && !IsHex(parts[1][i]) then None
          else Some((version, seq(64, i requires 0 <= i < 64 => Lower(parts[1][i]))))
  }

  // ---------------------------------------------------------------- round trip

  function Pow10(w: nat): nat { if w == 0 then 1 else 10 * Pow10(w - 1) }

  lemma {:induction false} PadValue(n: nat, w: nat)
    requires n < Pow10(w)
    ensures DecimalValue(Pad(n, w)) == Some(n)
  {
    if w > 0 {
      PadValue(n / 10, w - 1);
      assert Pad(n, w)[..w - 1] == Pad(n / 10, w - 1);
    }
  }

  lemma {:induction false} DecimalRoundTrip(n: nat)
    ensures DecimalValue(Decimal(n)) == Some(n)
  {
    if n < 10 {
      assert Decimal(n)[..0] == "";
    } else {
      DecimalRoundTrip(n / 10);
      assert Decimal(n)[..|Decimal(n)| - 1] == Decimal(n / 10);
    }
  }

  lemma TwentyDigitsHoldUint64()
    ensures UINT64_LIMIT <= Pow10(20)
  {
    assert Pow10(5) == 100000;
    assert Pow10(10) == 10000000000;
    assert Pow10(15) == 1000000000000000;
    assert Pow10(20) == 100000000000000000000;
  }

  lemma {:induction false} SplitHead(a: string, rest: string, sep: char)
    requires sep !in a
    ensures Split(a + [sep] + rest, sep) == [a] + Split(rest, sep)
  {
    var s := a + [sep] + rest;
    if a == "" {
      assert s[1..] == rest;
    } else {
      SplitHead(a[1..], rest, sep);
      assert s[1..] == a[1..] + [sep] + rest;
      assert [a[0]] + a[1..] == a;
    }
  }

  lemma {:induction false} SplitWhole(a: string, sep: char)
    requires sep !in a
    ensures Split(a, sep) == [a]
  {
    if a != "" {
      SplitWhole(a[1..], sep);
      assert [a[0]] + a[1..] == a;
    }
  }

  lemma FileNameHasNoSlash(t: ConfigTarget)
    ensures '/' !in FileName(t)
  {
    if t.repair.Some? {
      var d := Decimal(t.repair.value);
      assert Suffix(t) == "-repair-" + d + ".json";
      assert '/' !in "-repair-" && '/' !in d && '/' !in ".json";
    } else {
      assert Suffix(t) == ".json";
      assert '/' !in ".json";
    }
    assert '/' !in Pad(t.version, 20) && '/' !in t.digest && '/' !in Suffix(t);
  }

  /** What follows the digest once the extension is gone. */
  function Mark(t: ConfigTarget): string {
    if t.repair.None? then "" else "-repair-" + Decimal(t.repair.value)
  }

  function Stem(t: ConfigTarget): string { Pad(t.version, 20) + "-" + t.digest + Mark(t) }

  lemma TrimStem(stem: string)
    ensures TrimJson(stem + ".json") == stem
  {
    assert (stem + ".json")[|stem|..] == ".json";
    assert (stem + ".json")[..|stem|] == stem;
  }

  lemma PathShape(t: ConfigTarget)
    ensures ValidTarget(Path(t)) && Path(t)[9..] == FileName(t) == Stem(t) + ".json"
  {
    FileNameHasNoSlash(t);
    assert Path(t)[..9] == "versions/" && Path(t)[9..] == FileName(t);
    assert Suffix(t) == Mark(t) + ".json";
    assert FileName(t) == Stem(t) + ".json";
  }

  lemma SplitPair(p: string, d: string)
    requires '-' !in p && '-' !in d
    ensures Split(p + "-" + d, '-') == [p, d]
  {
    hide Split;
    SplitHead(p, d, '-');
    SplitWhole(d, '-');
  }

  lemma SplitStem(p: string, d: string, tail: string)
    requires '-' !in p && '-' !in d
    ensures Split(p + "-" + d + "-" + tail, '-') == [p, d] + Split(tail, '-')
  {
    hide Split;
    SplitHead(p, d + "-" + tail, '-');
    SplitHead(d, tail, '-');
    assert p + "-" + (d + "-" + tail) == p + "-" + d + "-" + tail;
    assert [p] + ([d] + Split(tail, '-')) == [p, d] + Split(tail, '-');
  }

  lemma StemParts(t: ConfigTarget)
    ensures var parts := Split(Stem(t), '-');
            |parts| >= 2 && parts[0] == Pad(t.version, 20) && parts[1] == t.digest
  {
    hide Split, Pad, Decimal;
    var p, d := Pad(t.version, 20), t.digest;
    assert '-' !in p && '-' !in d;
    if t.repair.None? {
      assert Stem(t) == p + "-" + d;
      SplitPair(p, d);
    } else {
      var tail := "repair-" + Decimal(t.repair.value);
      assert "-repair-" == "-" + "repair-";
      assert Stem(t) == p + "-" + d + "-" + tail;
      SplitStem(p, d, tail);
    }
  }

  /** The parts a parser sees: the padded version, the digest, and whatever follows. */
  lemma NameParts(t: ConfigTarget)
    ensures ValidTarget(Path(t))
    ensures var parts := Split(TrimJson(Path(t)[9..]), '-');
            |parts| >= 2 && parts[0] == Pad(t.version, 20) && parts[1] == t.digest
  {
    PathShape(t);
    TrimStem(Stem(t));
    StemParts(t);
  }

  lemma LowerDigest(d: Digest)
    ensures forall i :: 0 <= i < 64 ==> IsHex(d[i]) && Lower(d[i]) == d[i]
    ensures seq(64, i requires 0 <= i < 64 => Lower(d[i])) == d
  {
    assert forall i :: 0 <= i < 64 ==> IsLowerHex(d[i]) && Lower(d[i]) == d[i];
  }

  lemma VersionParses(version: Uint64)
    ensures ParseUint(Pad(version, 20)) == Some(version)
  {
    TwentyDigitsHoldUint64();
    PadValue(version, 20);
  }

  /** Version and digest survive the trip through a file name, plain or repaired. */
  lemma RoundTrip(t: ConfigTarget, path: string)
    requires t.version > 0 && path == Path(t)
    ensures Metadata(path) == Some((t.version, t.digest))
  {
    hide Split, TrimJson, ValidTarget, Pad, ParseUint, Path, Lower, IsHex;
    NameParts(t);
    VersionParses(t.version);
    LowerDigest(t.digest);
  }

  lemma SuffixInjective(a: ConfigTarget, b: ConfigTarget)
    requires Suffix(a) == Suffix(b)
    ensures a.repair == b.repair
  {
    if a.repair.Some? && b.repair.Some? {
      var x, y := Decimal(a.repair.value), Decimal(b.repair.value);
      assert Suffix(a)[8..|Suffix(a)| - 5] == x && Suffix(b)[8..|Suffix(b)| - 5] == y;
      DecimalRoundTrip(a.repair.value);
      DecimalRoundTrip(b.repair.value);
    }
  }

  /** Different targets have different names; in particular a repair never reuses a plain name. */
  lemma PathInjective(a: ConfigTarget, b: ConfigTarget)
    requires Path(a) == Path(b)
    ensures a == b
  {
    NameParts(a);
    NameParts(b);
    TwentyDigitsHoldUint64();
    PadValue(a.version, 20);
    PadValue(b.version, 20);
    assert a.version == b.version && a.digest == b.digest;
    assert FileName(a)[85..] == Suffix(a) && FileName(b)[85..] == Suffix(b);
    assert Path(a)[9..] == FileName(a) && Path(b)[9..] == FileName(b);
    SuffixInjective(a, b);
  }

  // ---------------------------------------------------------------- order

  lemma {:induction false} PadOrder(m: nat, n: nat, w: nat, x: string, y: string)
    requires m < n < Pow10(w)
    ensures LexLess(Pad(m, w) + x, Pad(n, w) + y)
  {
    var dm, dn := [Digit(m % 10)], [Digit(n % 10)];
    var pm, pn := Pad(m / 10, w - 1), Pad(n / 10, w - 1);
    assert Pad(m, w) + x == pm + (dm + x) && Pad(n, w) + y == pn + (dn + y);
    if m / 10 < n / 10 {
      PadOrder(m / 10, n / 10, w - 1, dm + x, dn + y);
    } else {
      LexPrefix(pm, dm + x, dn + y);
    }
  }

  /** Sorting names sorts versions, whatever digests and repair marks follow. */
  lemma NameOrderIsVersionOrder(a: ConfigTarget, b: ConfigTarget)
    requires a.version != b.version
    ensures LexLess(FileName(a), FileName(b)) <==> a.version < b.version
  {
    TwentyDigitsHoldUint64();
    var x, y := "-" + a.digest + Suffix(a), "-" + b.digest + Suffix(b);
    assert FileName(a) == Pad(a.version, 20) + x && FileName(b) == Pad(b.version, 20) + y;
    if a.version < b.version {
      PadOrder(a.version, b.version, 20, x, y);
    } else {
      PadOrder(b.version, a.version, 20, y, x);
      if LexLess(FileName(a), FileName(b)) {
        LexTransitive(FileName(a), FileName(b), FileName(a));
        LexIrreflexive(FileName(a));
      }
    }
  }
}
