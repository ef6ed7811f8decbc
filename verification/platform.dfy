/** A single image platform `os/architecture[/variant]`: its text form, parsing and order. */
module Platform {
  import opened Wrappers
  import Text
  import Sorting

  /** OS follows GOOS, Architecture follows GOARCH, Variant is the CPU variant or empty. */
  datatype DockerPlatform = DockerPlatform(os: string, architecture: string, variant: string)

  /** `DockerPlatform.String`: "os/arch", or "os/arch/variant" when the variant is set. */
  function ToString(p: DockerPlatform): string {
    if p.variant != "" then p.os + "/" + p.architecture + "/" + p.variant
    else p.os + "/" + p.architecture
  }

  /** The pieces a platform string splits into at '/'. */
  function Fields(p: DockerPlatform): seq<string> {
    if p.variant != "" then [p.os, p.architecture, p.variant] else [p.os, p.architecture]
  }

  /** No field of the platform contains the separator '/'. */
  predicate Plain(p: DockerPlatform) {
    '/' !in p.os && '/' !in p.architecture && '/' !in p.variant
  }

  /** `ParseDockerPlatform`: split at '/'; two pieces give OS and architecture, three add the
      variant, any other count is an error. */
  function Parse(s: string): Result<DockerPlatform> {
    var parts := Text.Split(s, '/');
    if |parts| < 2 then Failure(Error("invalid platform: too few parts: " + s))
    else if |parts| > 3 then Failure(Error("invalid platform: too many parts: " + s))
    else if |parts| >= 3 then Success(DockerPlatform(parts[0], parts[1], parts[2]))
    else Success(DockerPlatform(parts[0], parts[1], ""))
  }

  /** The number of '/' characters in a string. */
  function CountSlashes(s: string): nat {
    if |s| == 0 then 0 else (if s[0] == '/' then 1 else 0) + CountSlashes(s[1..])
  }

  lemma {:induction false} SplitCount(s: string)
    ensures |Text.Split(s, '/')| == CountSlashes(s) + 1
    decreases |s|
  {
    if |s| > 0 {
      SplitCount(s[1..]);
    }
  }

  /** Parsing succeeds exactly for strings with one or two '/' characters; with one the
      variant is empty, with two it is the text after the second '/'. */
  lemma ParseShape(s: string)
    ensures |Text.Split(s, '/')| == CountSlashes(s) + 1
    ensures Parse(s).Success? <==> 1 <= CountSlashes(s) <= 2
    ensures Parse(s).Success? ==> Parse(s).value.variant == (if CountSlashes(s) == 2 then Text.Split(s, '/')[2] else "")
    ensures Parse(s).Success? ==> [Parse(s).value.os, Parse(s).value.architecture] == Text.Split(s, '/')[..2]
  {
    SplitCount(s);
  }

  /** The text form splits back into the platform's fields. */
  lemma ToStringFields(p: DockerPlatform)
    requires Plain(p)
    ensures Text.Split(ToString(p), '/') == Fields(p)
  {
    var f := Fields(p);
    if p.variant != "" {
      assert f[1..] == [p.architecture, p.variant] && f[1..][1..] == [p.variant];
      assert Text.Join(f[1..], "/") == p.architecture + "/" + p.variant;
      assert Text.Join(f, "/") == p.os + "/" + (p.architecture + "/" + p.variant);
    } else {
      assert f[1..] == [p.architecture];
    }
    assert ToString(p) == Text.Join(f, "/");
    Text.SplitJoin(f, '/');
  }

  /** Round trip: parsing the text form gives the platform back. */
  lemma ParseToString(p: DockerPlatform)
    requires Plain(p)
    ensures Parse(ToString(p)) == Success(p)
  {
    ToStringFields(p);
  }

  /** Printing a parsed platform restores the text, except for a trailing empty variant
      ("linux/arm/" parses, but prints as "linux/arm"). */
  lemma ToStringParse(s: string)
    requires Parse(s).Success?
    ensures ToString(Parse(s).value) == s <==> !(|Text.Split(s, '/')| == 3 && Text.Split(s, '/')[2] == "")
  {
    var parts := Text.Split(s, '/');
    Text.JoinSplit(s, '/');
    var p := Parse(s).value;
    if |parts| == 3 && parts[2] == "" {
      assert |ToString(p)| < |s| by {
        assert parts[1..] == [parts[1], parts[2]] && parts[1..][1..] == [parts[2]];
        assert Text.Join(parts[1..], "/") == parts[1] + "/" + parts[2];
        assert s == Text.Join(parts, "/");
        assert Text.Join(parts, "/") == parts[0] + "/" + (parts[1] + "/" + parts[2]);
      }
    } else if |parts| == 3 {
      assert parts[1..] == [parts[1], parts[2]] && parts[1..][1..] == [parts[2]];
      assert Text.Join(parts[1..], "/") == parts[1] + "/" + parts[2];
      assert Text.Join(parts, "/") == parts[0] + "/" + (parts[1] + "/" + parts[2]);
    } else {
      assert parts[1..] == [parts[1]];
    }
  }

  /** `DockerPlatform.Cmp`: compares OS, then architecture, then variant, as Go compares
      strings; -1, 0 or 1. */
  function Cmp(p: DockerPlatform, other: DockerPlatform): (r: int)
    ensures r == -1 || r == 0 || r == 1
    ensures r == 0 <==> p == other
    ensures r == -1 <==> (Text.Less(p.os, other.os)
                          || (p.os == other.os && Text.Less(p.architecture, other.architecture))
                          || (p.os == other.os && p.architecture == other.architecture && Text.Less(p.variant, other.variant)))
  {
    var c := Text.Compare(p.os, other.os);
    if c != 0 then c
    else
      var c' := Text.Compare(p.architecture, other.architecture);
      if c' != 0 then c' else Text.Compare(p.variant, other.variant)
  }

  lemma CmpAntisymmetric(a: DockerPlatform, b: DockerPlatform)
    ensures Cmp(a, b) == -Cmp(b, a)
  {
    Text.LessTrichotomy(a.os, b.os);
    Text.LessTrichotomy(a.architecture, b.architecture);
    Text.LessTrichotomy(a.variant, b.variant);
    if Text.Less(a.os, b.os) { Text.LessAsymmetric(a.os, b.os); }
    if Text.Less(b.os, a.os) { Text.LessAsymmetric(b.os, a.os); }
    if Text.Less(a.architecture, b.architecture) { Text.LessAsymmetric(a.architecture, b.architecture); }
    if Text.Less(b.architecture, a.architecture) { Text.LessAsymmetric(b.architecture, a.architecture); }
    if Text.Less(a.variant, b.variant) { Text.LessAsymmetric(a.variant, b.variant); }
    if Text.Less(b.variant, a.variant) { Text.LessAsymmetric(b.variant, a.variant); }
  }

  /** The order `Normalized` sorts by. */
  predicate Less(a: DockerPlatform, b: DockerPlatform) {
    Cmp(a, b) < 0
  }

  lemma LessTransitive(a: DockerPlatform, b: DockerPlatform, c: DockerPlatform)
    requires Less(a, b) && Less(b, c)
    ensures Less(a, c)
  {
    if Text.Less(a.os, b.os) && Text.Less(b.os, c.os) { Text.LessTransitive(a.os, b.os, c.os); }
    if Text.Less(a.architecture, b.architecture) && Text.Less(b.architecture, c.architecture) {
      Text.LessTransitive(a.architecture, b.architecture, c.architecture);
    }
    if Text.Less(a.variant, b.variant) && Text.Less(b.variant, c.variant) {
      Text.LessTransitive(a.variant, b.variant, c.variant);
    }
  }

  /** Cmp is a total order, so sorting by it has one result. */
  lemma LessIsStrictTotalOrder()
    ensures Sorting.StrictTotalOrder(Less)
  {
    forall a, b, c | Less(a, b) && Less(b, c) ensures Less(a, c) {
      LessTransitive(a, b, c);
    }
    forall a, b ensures Less(a, b) || a == b || Less(b, a) {
      CmpAntisymmetric(a, b);
    }
  }

  /** `DockerPlatform.Variantless`: the same platform with the variant cleared. */
  function Variantless(p: DockerPlatform): (r: DockerPlatform)
    ensures r.os == p.os && r.architecture == p.architecture && r.variant == ""
  {
    p.(variant := "")
  }

  /** Clearing the variant twice is clearing it once; it only changes platforms with a variant. */
  lemma VariantlessIdempotent(p: DockerPlatform)
    ensures Variantless(Variantless(p)) == Variantless(p)
    ensures Variantless(p) == p <==> p.variant == ""
  {
  }

  // The named platforms of the package.
  const Linux386 := DockerPlatform("linux", "386", "")
  const LinuxAMD64 := DockerPlatform("linux", "amd64", "")
  const LinuxAMD64V2 := DockerPlatform("linux", "amd64", "v2")
  const LinuxAMD64V3 := DockerPlatform("linux", "amd64", "v3")
  const LinuxAMD64V4 := DockerPlatform("linux", "amd64", "v4")
  const LinuxARM64 := DockerPlatform("linux", "arm64", "")
  const LinuxARM64V8 := DockerPlatform("linux", "arm64", "v8")
  const LinuxARMV5 := DockerPlatform("linux", "arm", "v5")
  const LinuxARMV6 := DockerPlatform("linux", "arm", "v6")
  const LinuxARMV7 := DockerPlatform("linux", "arm", "v7")
  const LinuxMIPS := DockerPlatform("linux", "mips", "")
  const LinuxMIPS64 := DockerPlatform("linux", "mips64", "")
  const LinuxMIPS64LE := DockerPlatform("linux", "mips64le", "")
  const LinuxMIPSLE := DockerPlatform("linux", "mipsle", "")
  const LinuxPPC64LE := DockerPlatform("linux", "ppc64le", "")
  const LinuxRISCV64 := DockerPlatform("linux", "riscv64", "")
  const LinuxS390X := DockerPlatform("linux", "s390x", "")
  const WindowsAMD64 := DockerPlatform("windows", "amd64", "")

  /** The named platforms of the package, in declaration order. */
  const NamedPlatforms := [Linux386, LinuxAMD64, LinuxAMD64V2, LinuxAMD64V3, LinuxAMD64V4, LinuxARM64,
                           LinuxARM64V8, LinuxARMV5, LinuxARMV6, LinuxARMV7, LinuxMIPS, LinuxMIPS64,
                           LinuxMIPS64LE, LinuxMIPSLE, LinuxPPC64LE, LinuxRISCV64, LinuxS390X, WindowsAMD64]

  /** The first nine named platforms, then the last nine, have no '/' in any field. */
  lemma FirstNinePlain()
    ensures Plain(Linux386) && Plain(LinuxAMD64) && Plain(LinuxAMD64V2) && Plain(LinuxAMD64V3) && Plain(LinuxAMD64V4) && Plain(LinuxARM64) && Plain(LinuxARM64V8) && Plain(LinuxARMV5) && Plain(LinuxARMV6)
  {
  }

  lemma LastNinePlain()
    ensures Plain(LinuxARMV7) && Plain(LinuxMIPS) && Plain(LinuxMIPS64) && Plain(LinuxMIPS64LE) && Plain(LinuxMIPSLE) && Plain(LinuxPPC64LE) && Plain(LinuxRISCV64) && Plain(LinuxS390X) && Plain(WindowsAMD64)
  {
  }

  lemma NamedPlatformsPlain()
    ensures forall p | p in NamedPlatforms :: Plain(p)
  {
    FirstNinePlain();
    LastNinePlain();
  }

  /** Each named platform is what `MustParseDockerPlatform` makes of its text form, so
      `MustParseDockerPlatform` never panics on them. */
  lemma NamedPlatformsParse()
    ensures |NamedPlatforms| == 18
    ensures forall p | p in NamedPlatforms :: Parse(ToString(p)) == Success(p)
  {
    NamedPlatformsPlain();
    forall p | p in NamedPlatforms ensures Parse(ToString(p)) == Success(p) {
      ParseToString(p);
    }
  }
}
