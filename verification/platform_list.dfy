/** `DockerPlatformList`: an ordered list of platforms, its text form and its set algebra. */
module PlatformList {
  import opened Wrappers
  import Text
  import Sorting
  import P = Platform

  type DockerPlatform = P.DockerPlatform

  /** Element-wise text forms. */
  function Texts(l: seq<DockerPlatform>): (r: seq<string>)
    ensures |r| == |l| && forall i :: 0 <= i < |l| ==> r[i] == P.ToString(l[i])
  {
    if |l| == 0 then [] else Texts(l[..|l| - 1]) + [P.ToString(l[|l| - 1])]
  }

  /** The text form of a list: element texts joined with ", ". */
  function ListToString(l: seq<DockerPlatform>): string {
    Text.Join(Texts(l), ", ")
  }

  /** `DockerPlatformList.String`. */
  method String(l: seq<DockerPlatform>) returns (s: string)
    ensures s == ListToString(l)
  {
    var platforms := new string[|l|];
    for i := 0 to |l|
      invariant forall k :: 0 <= k < i ==> platforms[k] == P.ToString(l[k])
    {
      platforms[i] := P.ToString(l[i]);
    }
    assert platforms[..] == Texts(l);
    s := Text.Join(platforms[..], ", ");
  }

  /** The empty list prints as the empty string, and only the empty list does. */
  lemma ListToStringEmpty(l: seq<DockerPlatform>)
    ensures ListToString(l) == "" <==> l == []
  {
    if l != [] {
      JoinFirst(Texts(l), ", ");
      assert P.ToString(l[0]) != "" by {
        assert |P.ToString(l[0])| >= 1 + |l[0].os|;
      }
    }
  }

  /** One piece of a list text, trimmed and parsed. */
  function ParsePiece(t: string): Result<DockerPlatform> {
    P.Parse(Text.TrimSpace(t))
  }

  /** Parses every piece of a list text with `parse` (`ParsePiece` for a list text; the facts
      below hold for any piece parser); the first failing piece decides the error. */
  function ParseAll(texts: seq<string>, parse: string -> Result<DockerPlatform>): (r: Result<seq<DockerPlatform>>)
    ensures r.Success? ==> |r.value| == |texts|
    ensures r.Success? ==> forall i :: 0 <= i < |texts| ==> parse(texts[i]) == Success(r.value[i])
  {
    if |texts| == 0 then Success([])
    else
      var init := ParseAll(texts[..|texts| - 1], parse);
      var last := parse(texts[|texts| - 1]);
      if init.Failure? then init
      else if last.Failure? then Failure(last.error)
      else Success(init.value + [last.value])
  }

  /** A list text fails to parse exactly when one of its pieces does. */
  lemma {:induction false} ParseAllFailure(texts: seq<string>, parse: string -> Result<DockerPlatform>)
    ensures ParseAll(texts, parse).Failure? <==> exists i :: 0 <= i < |texts| && parse(texts[i]).Failure?
    decreases |texts|
  {
    if |texts| > 0 {
      var n := |texts| - 1;
      var init := texts[..n];
      ParseAllFailure(init, parse);
      if ParseAll(init, parse).Failure? {
        var i :| 0 <= i < n && parse(init[i]).Failure?;
        assert init[i] == texts[i];
      } else if parse(texts[n]).Success? {
        forall i | 0 <= i < |texts|
          ensures parse(texts[i]).Success?
        {
          if i < n {
            assert init[i] == texts[i];
          }
        }
      }
    }
  }

  /** Pieces that each parse give the list of their values. */
  lemma {:induction false} ParseAllSuccess(texts: seq<string>, parse: string -> Result<DockerPlatform>, values: seq<DockerPlatform>)
    requires |values| == |texts|
    requires forall i :: 0 <= i < |texts| ==> parse(texts[i]) == Success(values[i])
    ensures ParseAll(texts, parse) == Success(values)
    decreases |texts|
  {
    if |texts| > 0 {
      var n := |texts| - 1;
      ParseAllSuccess(texts[..n], parse, values[..n]);
      assert values == values[..n] + [values[n]];
    }
  }

  /** When a list text fails to parse, the error is the one of its first failing piece. */
  lemma {:induction false} ParseAllFirstError(texts: seq<string>, parse: string -> Result<DockerPlatform>)
    requires ParseAll(texts, parse).Failure?
    ensures exists i :: (0 <= i < |texts| && parse(texts[i]) == Failure(ParseAll(texts, parse).error)
      && forall j :: 0 <= j < i ==> parse(texts[j]).Success?)
    decreases |texts|
  {
    var n := |texts| - 1;
    var init := texts[..n];
    if ParseAll(init, parse).Failure? {
      ParseAllFirstError(init, parse);
      var i :| 0 <= i < n && parse(init[i]) == Failure(ParseAll(init, parse).error)
        && (forall j :: 0 <= j < i ==> parse(init[j]).Success?);
      assert ParseAll(texts, parse) == ParseAll(init, parse);
      assert init[i] == texts[i];
      forall j | 0 <= j < i
        ensures parse(texts[j]).Success?
      {
        assert init[j] == texts[j];
      }
    } else {
      assert ParseAll(texts, parse) == Failure(parse(texts[n]).error);
      forall j | 0 <= j < n
        ensures parse(texts[j]).Success?
      {
        assert init[j] == texts[j];
      }
    }
  }

  /** `ParseDockerPlatformList`: blank text is the empty list; otherwise split at ',' and parse
      every trimmed piece. */
  function ParseList(s: string): Result<seq<DockerPlatform>> {
    var t := Text.TrimSpace(s);
    if t == [] then Success([]) else ParseAll(Text.Split(t, ','), ParsePiece)
  }

  method ParseDockerPlatformList(s: string) returns (r: Result<seq<DockerPlatform>>)
    ensures r == ParseList(s)
  {
    var t := Text.TrimSpace(s);
    if t == [] {
      return Success([]);
    }
    r := ParsePieces(Text.Split(t, ','));
  }

  /** The loop of `ParseDockerPlatformList`: parses the pieces into a list of the same length,
      stopping at the first piece that fails. */
  method ParsePieces(platformTexts: seq<string>) returns (r: Result<seq<DockerPlatform>>)
    ensures r == ParseAll(platformTexts, ParsePiece)
  {
    var platforms := new DockerPlatform[|platformTexts|];
    for i := 0 to |platformTexts|
      invariant ParseAll(platformTexts[..i], ParsePiece) == Success(platforms[..i])
    {
      var platform := ParsePiece(platformTexts[i]);
      ParseAllStep(platformTexts, i, ParsePiece);
      if platform.Failure? {
        ParseAllStopsAtFailure(platformTexts, i + 1, ParsePiece);
        return Failure(platform.error);
      }
      platforms[i] := platform.value;
      assert platforms[..i + 1] == platforms[..i] + [platform.value];
    }
    assert platformTexts[..|platformTexts|] == platformTexts;
    assert platforms[..|platformTexts|] == platforms[..];
    r := Success(platforms[..]);
  }

  /** Parsing one more piece after a prefix that parsed. */
  lemma ParseAllStep(texts: seq<string>, i: nat, parse: string -> Result<DockerPlatform>)
    requires i < |texts| && ParseAll(texts[..i], parse).Success?
    ensures parse(texts[i]).Failure? ==> ParseAll(texts[..i + 1], parse) == Failure(parse(texts[i]).error)
    ensures parse(texts[i]).Success? ==>
      ParseAll(texts[..i + 1], parse) == Success(ParseAll(texts[..i], parse).value + [parse(texts[i]).value])
  {
    assert texts[..i + 1][..i] == texts[..i];
  }

  /** Once a prefix of the pieces fails, further pieces do not change the outcome. */
  lemma {:induction false} ParseAllStopsAtFailure(texts: seq<string>, k: nat, parse: string -> Result<DockerPlatform>)
    requires k <= |texts| && ParseAll(texts[..k], parse).Failure?
    ensures ParseAll(texts, parse) == ParseAll(texts[..k], parse)
    decreases |texts| - k
  {
    if k < |texts| {
      var init := texts[..|texts| - 1];
      assert init[..k] == texts[..k];
      ParseAllStopsAtFailure(init, k, parse);
    } else {
      assert texts[..k] == texts;
    }
  }

  /** Empty or blank text parses to the empty list without error. */
  lemma ParseListBlank(s: string)
    requires Text.AllSpace(s)
    ensures ParseList(s) == Success([])
  {
    Text.TrimSpaceEmpty(s);
  }

  // Facts about joined texts used by the round trip.

  lemma JoinFirst(parts: seq<string>, sep: string)
    requires |parts| >= 1
    ensures |Text.Join(parts, sep)| >= |parts[0]|
    ensures Text.Join(parts, sep)[..|parts[0]|] == parts[0]
  {
  }

  lemma {:induction false} JoinLast(parts: seq<string>, sep: string)
    requires |parts| >= 1
    ensures |Text.Join(parts, sep)| >= |parts[|parts| - 1]|
    ensures Text.Join(parts, sep)[|Text.Join(parts, sep)| - |parts[|parts| - 1]|..] == parts[|parts| - 1]
    decreases |parts|
  {
    if |parts| > 1 {
      JoinLast(parts[1..], sep);
    }
  }

  /** Splitting a ", "-joined text at ',' gives the first text and every other text behind a blank. */
  lemma {:induction false} SplitJoined(texts: seq<string>)
    requires |texts| >= 1
    requires forall i :: 0 <= i < |texts| ==> ',' !in texts[i]
    ensures |Text.Split(Text.Join(texts, ", "), ',')| == |texts|
    ensures Text.Split(Text.Join(texts, ", "), ',')[0] == texts[0]
    ensures forall i :: 1 <= i < |texts| ==> Text.Split(Text.Join(texts, ", "), ',')[i] == [' '] + texts[i]
    decreases |texts|
  {
    if |texts| == 1 {
      Text.SplitNoSeparator(texts[0], ',');
    } else {
      var rest := Text.Join(texts[1..], ", ");
      SplitJoined(texts[1..]);
      assert Text.Join(texts, ", ") == texts[0] + [','] + ([' '] + rest);
      Text.SplitPrefix(texts[0], ',', [' '] + rest);
      assert ([' '] + rest)[1..] == rest;
      var tail := Text.Split(rest, ',');
      assert Text.Split([' '] + rest, ',') == [[' '] + tail[0]] + tail[1..];
    }
  }

  /** No field of the platform contains a separator or white space. */
  predicate ListSafe(p: DockerPlatform) {
    P.Plain(p) && ',' !in p.os && ',' !in p.architecture && ',' !in p.variant
    && Text.NoSpace(p.os) && Text.NoSpace(p.architecture) && Text.NoSpace(p.variant)
  }

  lemma ToStringSafe(p: DockerPlatform)
    requires ListSafe(p)
    ensures ',' !in P.ToString(p) && Text.NoSpace(P.ToString(p)) && |P.ToString(p)| > 0
  {
  }

  lemma TrimUnchanged(s: string)
    requires |s| > 0 && !Text.IsSpace(s[0]) && !Text.IsSpace(s[|s| - 1])
    ensures Text.TrimSpace(s) == s
  {
  }

  /** A printed platform, with or without the blank that follows a list separator, parses back. */
  lemma PieceRoundTrip(p: DockerPlatform, piece: string)
    requires ListSafe(p)
    requires piece == P.ToString(p) || piece == [' '] + P.ToString(p)
    ensures ParsePiece(piece) == Success(p)
  {
    ToStringSafe(p);
    if piece == P.ToString(p) {
      Text.TrimSpaceNoSpace(piece);
    } else {
      Text.TrimSpaceLeadingBlank(P.ToString(p));
    }
    P.ParseToString(p);
  }

  /** The text form of a non-empty list has no surrounding blanks. */
  lemma ListTextTrimmed(l: seq<DockerPlatform>)
    requires |l| > 0 && forall i :: 0 <= i < |l| ==> ListSafe(l[i])
    ensures Text.TrimSpace(ListToString(l)) == ListToString(l) != []
  {
    var texts := Texts(l);
    var s := ListToString(l);
    ToStringSafe(l[0]);
    ToStringSafe(l[|l| - 1]);
    JoinFirst(texts, ", ");
    JoinLast(texts, ", ");
    assert s[0] == texts[0][0];
    assert s[|s| - 1] == texts[|l| - 1][|texts[|l| - 1]| - 1];
    TrimUnchanged(s);
  }

  /** The pieces of the text form of a non-empty list parse to its elements. */
  lemma PiecesParse(l: seq<DockerPlatform>)
    requires |l| > 0 && forall i :: 0 <= i < |l| ==> ListSafe(l[i])
    ensures |Text.Split(ListToString(l), ',')| == |l|
    ensures forall i :: 0 <= i < |l| ==> ParsePiece(Text.Split(ListToString(l), ',')[i]) == Success(l[i])
  {
    var texts := Texts(l);
    forall i | 0 <= i < |l| ensures ',' !in texts[i] {
      ToStringSafe(l[i]);
    }
    SplitJoined(texts);
    var pieces := Text.Split(ListToString(l), ',');
    forall i | 0 <= i < |l| ensures ParsePiece(pieces[i]) == Success(l[i]) {
      assert texts[i] == P.ToString(l[i]);
      if i == 0 {
        assert pieces[i] == texts[i];
      } else {
        assert pieces[i] == [' '] + texts[i];
      }
      PieceRoundTrip(l[i], pieces[i]);
    }
  }

  /** Round trip: parsing the text form of a list gives the list back. */
  lemma ParseListString(l: seq<DockerPlatform>)
    requires forall i :: 0 <= i < |l| ==> ListSafe(l[i])
    ensures ParseList(ListToString(l)) == Success(l)
  {
    if |l| > 0 {
      ListTextTrimmed(l);
      PiecesParse(l);
      var pieces := Text.Split(ListToString(l), ',');
      ParseAllSuccess(pieces, ParsePiece, l);
    }
  }

  /** The elements of `p` in first-occurrence order, without repeats. */
  function Dedup(p: seq<DockerPlatform>): (r: seq<DockerPlatform>)
    ensures forall x :: x in r <==> x in p
    ensures Sorting.Distinct(r)
    ensures |r| <= |p|
  {
    if |p| == 0 then []
    else
      var d := Dedup(p[..|p| - 1]);
      assert forall x :: x in p <==> x in p[..|p| - 1] || x == p[|p| - 1];
      if p[|p| - 1] in d then d else d + [p[|p| - 1]]
  }

  /** The normalized form: distinct elements in increasing Cmp order. */
  function Normalize(p: seq<DockerPlatform>): seq<DockerPlatform> {
    Sorting.SortBy(Dedup(p), P.Less)
  }

  /** `Normalized` sorts strictly by Cmp, keeps the element set, never grows, and maps the
      empty list to the empty list. */
  lemma NormalizeSpec(p: seq<DockerPlatform>)
    ensures Sorting.StrictlySorted(Normalize(p), P.Less)
    ensures forall x :: x in Normalize(p) <==> x in p
    ensures |Normalize(p)| <= |p|
    ensures p == [] ==> Normalize(p) == []
  {
    var d := Dedup(p);
    var r := Normalize(p);
    P.LessIsStrictTotalOrder();
    Sorting.SortBySpec(d, P.Less);
    PermutationKeeps(d, r);
    Sorting.SortedDistinctStrict(r, P.Less);
  }

  /** A permutation of a repeat-free list has the same elements, length and no repeats. */
  lemma PermutationKeeps(d: seq<DockerPlatform>, r: seq<DockerPlatform>)
    requires multiset(r) == multiset(d) && Sorting.Distinct(d)
    ensures |r| == |d| && Sorting.Distinct(r)
    ensures forall x :: x in r <==> x in d
  {
    assert |r| == |multiset(r)| == |multiset(d)| == |d|;
    forall x ensures x in r <==> x in d {
      assert x in r <==> x in multiset(r);
      assert x in d <==> x in multiset(d);
    }
    forall i, j | 0 <= i < j < |r| ensures r[i] != r[j] {
      if r[i] == r[j] {
        assert multiset(r)[r[i]] >= 2 by {
          assert r == r[..i] + [r[i]] + r[i + 1..j] + [r[j]] + r[j + 1..];
        }
        Sorting.DistinctCount(d, r[i]);
        assert false;
      }
    }
  }

  /** The normalized form is the only strictly increasing list with the same elements, so it
      does not depend on the order or repeats of the input. */
  lemma NormalizeUnique(p: seq<DockerPlatform>, r: seq<DockerPlatform>)
    requires Sorting.StrictlySorted(r, P.Less)
    requires forall x :: x in r <==> x in p
    ensures r == Normalize(p)
  {
    NormalizeSpec(p);
    P.LessIsStrictTotalOrder();
    Sorting.StrictlySortedUnique(r, Normalize(p), P.Less);
  }

  /** Normalizing twice is normalizing once. */
  lemma NormalizeIdempotent(p: seq<DockerPlatform>)
    ensures Normalize(Normalize(p)) == Normalize(p)
  {
    NormalizeSpec(p);
    NormalizeUnique(Normalize(p), Normalize(p));
  }

  /** `DockerPlatformList.Normalized`: drop repeats in a first-seen pass, then sort by Cmp. */
  method Normalized(p: seq<DockerPlatform>) returns (r: seq<DockerPlatform>)
    ensures r == Normalize(p)
  {
    if |p| == 0 {
      return [];
    }
    var normalized: seq<DockerPlatform> := [];
    var seen: set<DockerPlatform> := {};
    for i := 0 to |p|
      invariant normalized == Dedup(p[..i])
      invariant forall x :: x in seen <==> x in normalized
    {
      assert p[..i + 1][..i] == p[..i];
      if p[i] in seen {
        continue;
      }
      seen := seen + {p[i]};
      normalized := normalized + [p[i]];
    }
    assert p[..|p|] == p;
    r := Sorting.SortBy(normalized, P.Less);
  }

  /** Every element with its variant cleared. */
  function ClearVariants(p: seq<DockerPlatform>): (r: seq<DockerPlatform>)
    ensures |r| == |p| && forall i :: 0 <= i < |p| ==> r[i] == P.Variantless(p[i])
  {
    if |p| == 0 then [] else ClearVariants(p[..|p| - 1]) + [P.Variantless(p[|p| - 1])]
  }

  /** The variantless form of a list: clear every variant, then normalize. */
  function VariantlessOf(p: seq<DockerPlatform>): seq<DockerPlatform> {
    Normalize(ClearVariants(p))
  }

  /** `DockerPlatformList.Variantless`. */
  method Variantless(p: seq<DockerPlatform>) returns (r: seq<DockerPlatform>)
    ensures r == VariantlessOf(p)
  {
    var variantless := new DockerPlatform[|p|];
    for i := 0 to |p|
      invariant forall k :: 0 <= k < i ==> variantless[k] == P.Variantless(p[k])
    {
      variantless[i] := P.Variantless(p[i]);
    }
    assert variantless[..] == ClearVariants(p);
    r := Normalized(variantless[..]);
  }

  /** The variantless list has only empty variants, is normalized, is no longer than the input,
      and holds exactly the variant-cleared input elements. */
  lemma VariantlessSpec(p: seq<DockerPlatform>)
    ensures forall x :: x in VariantlessOf(p) ==> x.variant == ""
    ensures forall x :: x in VariantlessOf(p) <==> exists y :: y in p && x == P.Variantless(y)
    ensures Sorting.StrictlySorted(VariantlessOf(p), P.Less)
    ensures |VariantlessOf(p)| <= |p|
  {
    var c := ClearVariants(p);
    NormalizeSpec(c);
    forall x ensures x in c <==> exists y :: y in p && x == P.Variantless(y) {
      if x in c {
        var i :| 0 <= i < |c| && c[i] == x;
        assert p[i] in p;
      }
      if exists y :: y in p && x == P.Variantless(y) {
        var y :| y in p && x == P.Variantless(y);
        var i :| 0 <= i < |p| && p[i] == y;
        assert c[i] == x;
      }
    }
  }

  /** Clearing variants of a variantless list changes nothing. */
  lemma VariantlessIdempotent(p: seq<DockerPlatform>)
    ensures VariantlessOf(VariantlessOf(p)) == VariantlessOf(p)
  {
    var v := VariantlessOf(p);
    VariantlessSpec(p);
    assert ClearVariants(v) == v;
    NormalizeSpec(v);
    NormalizeUnique(v, v);
  }

  /** Every element of `other` occurs in `p`. */
  predicate IncludesAll(p: seq<DockerPlatform>, other: seq<DockerPlatform>) {
    forall x :: x in other ==> x in p
  }

  /** `DockerPlatformList.Includes`. */
  method Includes(p: seq<DockerPlatform>, other: seq<DockerPlatform>) returns (b: bool)
    ensures b == IncludesAll(p, other)
  {
    var pMap: set<DockerPlatform> := {};
    for i := 0 to |p|
      invariant forall x :: x in pMap <==> x in p[..i]
    {
      pMap := pMap + {p[i]};
    }
    assert p[..|p|] == p;
    for i := 0 to |other|
      invariant forall k :: 0 <= k < i ==> other[k] in p
    {
      if other[i] !in pMap {
        return false;
      }
    }
    return true;
  }

  /** Inclusion looks only at element sets: a list and its normalized form include each other,
      and the empty list is included in every list. */
  lemma IncludesNormalize(p: seq<DockerPlatform>)
    ensures IncludesAll(p, Normalize(p)) && IncludesAll(Normalize(p), p)
    ensures IncludesAll(p, [])
  {
    NormalizeSpec(p);
  }

  /** The elements of `p` that occur in `other`, in `p`'s order with `p`'s repeats. */
  function Filter(p: seq<DockerPlatform>, other: seq<DockerPlatform>): (r: seq<DockerPlatform>)
    ensures |r| <= |p|
    ensures forall x :: x in r <==> x in p && x in other
  {
    if |p| == 0 then []
    else
      var last := p[|p| - 1];
      assert forall x :: x in p <==> x in p[..|p| - 1] || x == last;
      Filter(p[..|p| - 1], other) + (if last in other then [last] else [])
  }

  /** `DockerPlatformList.Intersection`. */
  method Intersection(p: seq<DockerPlatform>, other: seq<DockerPlatform>) returns (r: seq<DockerPlatform>)
    ensures r == Filter(p, other)
  {
    var otherMap: set<DockerPlatform> := {};
    for i := 0 to |other|
      invariant forall x :: x in otherMap <==> x in other[..i]
    {
      otherMap := otherMap + {other[i]};
    }
    assert other[..|other|] == other;
    r := [];
    for i := 0 to |p|
      invariant r == Filter(p[..i], other)
    {
      assert p[..i + 1][..i] == p[..i];
      if p[i] in otherMap {
        r := r + [p[i]];
      }
    }
    assert p[..|p|] == p;
  }

  /** A list included in an intersection is included in both operands, and conversely. */
  lemma IntersectionIncludes(a: seq<DockerPlatform>, b: seq<DockerPlatform>, x: seq<DockerPlatform>)
    ensures IncludesAll(Filter(a, b), x) <==> IncludesAll(a, x) && IncludesAll(b, x)
  {
  }

  /** The intersection keeps a list unchanged when everything in it occurs in the other list. */
  lemma {:induction false} FilterAll(p: seq<DockerPlatform>, other: seq<DockerPlatform>)
    requires IncludesAll(other, p)
    ensures Filter(p, other) == p
    decreases |p|
  {
    if |p| > 0 {
      FilterAll(p[..|p| - 1], other);
      assert p[..|p| - 1] + [p[|p| - 1]] == p;
    }
  }
}
