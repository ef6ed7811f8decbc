/** `PlatformInspector`: resolves an image name to its platforms, through the cache. */
module Inspect {
  import opened Wrappers
  import P = Platform
  import opened ManifestAnalysis
  import opened Cache

  /** `TagNameOnly` followed by dropping the tag of a reference that also has a digest: the
      result has exactly one of tag and digest, keeps the digest, and defaults the tag to
      "latest". */
  function NormalizeRef(r: Reference): (n: Reference)
    ensures n.name == r.name && n.digest == r.digest
    ensures n.tag.Some? <==> n.digest.None?
    ensures r.digest.None? && r.tag.Some? ==> n.tag == r.tag
    ensures r.digest.None? && r.tag.None? ==> n.tag == Some("latest")
  {
    var tagged := if r.tag.None? && r.digest.None? then r.(tag := Some("latest")) else r;
    if tagged.tag.Some? && tagged.digest.Some? then tagged.(tag := None) else tagged
  }

  /** The cache key of a parsed reference: the text of its normalized form. */
  function CacheKey(r: Reference): string {
    RefString(NormalizeRef(r))
  }

  /** Normalizing is idempotent, so a normalized reference is its own cache key. */
  lemma NormalizeRefIdempotent(r: Reference)
    ensures NormalizeRef(NormalizeRef(r)) == NormalizeRef(r)
  {
  }

  /** Every analysis error carries a non-empty message, so caching it makes a negative entry. */
  lemma AnalysisErrorNonEmpty(ref: Reference, retriever: Retriever)
    ensures Analysis(ref, retriever).Failure? ==> Analysis(ref, retriever).error.msg != ""
  {
  }

  /** The entry `GetPlatforms` buffers for a fresh analysis: its platforms, or its error's message. */
  function Outcome(analysis: Result<seq<P.DockerPlatform>>): ImageData {
    if analysis.Success? then ImageData(analysis.value, "") else ImageData([], analysis.error.msg)
  }

  /** The answer `GetPlatforms` gives for a cache hit or a cached error. */
  function Replayed(l: Lookup): Result<seq<P.DockerPlatform>> {
    if l.err.Some? then Failure(Wrap("looking for cached data", l.err.value)) else Success(l.platforms)
  }

  /** The answer of a later lookup once an analysis is buffered: a success as it was, a failure as
      a cached error with the same message. */
  function Replay(analysis: Result<seq<P.DockerPlatform>>): Result<seq<P.DockerPlatform>> {
    if analysis.Success? then analysis else Failure(Wrap("looking for cached data", Error(analysis.error.msg)))
  }

  /** From `s0` to `s1` the cache grew, and every entry buffered since holds the outcome of
      analysing a normalized reference with that key. */
  ghost predicate Fills(s0: CacheState, s1: CacheState, retriever: Retriever) {
    && Grown(s0, s1)
    && forall k :: k in s1.newData && k !in s0.newData ==>
         exists r :: CacheKey(r) == k && s1.newData[k] == Outcome(Analysis(NormalizeRef(r), retriever))
  }

  /** Filling twice is filling once. */
  lemma FillsTransitive(s0: CacheState, s1: CacheState, s2: CacheState, retriever: Retriever)
    requires Fills(s0, s1, retriever) && Fills(s1, s2, retriever)
    ensures Fills(s0, s2, retriever)
  {
    GrownTransitive(s0, s1, s2);
    forall k | k in s2.newData && k !in s0.newData
      ensures exists r :: CacheKey(r) == k && s2.newData[k] == Outcome(Analysis(NormalizeRef(r), retriever))
    {
      if k in s1.newData {
        var r :| CacheKey(r) == k && s1.newData[k] == Outcome(Analysis(NormalizeRef(r), retriever));
        assert s2.newData[k] == s1.newData[k];
      }
    }
  }

  /** The answer of one `GetPlatforms` call made in cache state `s`: the wrapped parse error, the
      replayed answer of a hit or cached error, or else the analysis of the normalized reference. */
  ghost predicate Served(s: CacheState, image: string, parse: string -> Result<Reference>, retriever: Retriever,
                         a: Result<seq<P.DockerPlatform>>) {
    && (parse(image).Failure? ==> a == Failure(Wrap("parsing image reference", parse(image).error)))
    && (parse(image).Success? ==>
          var l := Look(s, CacheKey(parse(image).value));
          if Known(l) then a == Replayed(l) else a == Analysis(NormalizeRef(parse(image).value), retriever))
  }

  /** The answer of a `GetPlatforms` call made at any point of a run that started in cache state
      `s0`: as `Served` for the keys the cache answered at the start; for the others, the
      analysis of the normalized reference, or the replay of an analysis made earlier in the run
      for a reference with the same key. */
  ghost predicate Provided(s0: CacheState, image: string, parse: string -> Result<Reference>, retriever: Retriever,
                           a: Result<seq<P.DockerPlatform>>) {
    && (parse(image).Failure? ==> a == Failure(Wrap("parsing image reference", parse(image).error)))
    && (parse(image).Success? ==>
          var key := CacheKey(parse(image).value);
          var l := Look(s0, key);
          if Known(l) then a == Replayed(l)
          else
            || a == Analysis(NormalizeRef(parse(image).value), retriever)
            || exists r :: CacheKey(r) == key && a == Replay(Analysis(NormalizeRef(r), retriever)))
  }

  /** A call made once the cache has filled since the start of the run answers as `Provided`
      for the start of the run. */
  lemma ProvidedFrom(s0: CacheState, s: CacheState, image: string, parse: string -> Result<Reference>,
                     retriever: Retriever, a: Result<seq<P.DockerPlatform>>)
    requires Fills(s0, s, retriever) && Provided(s, image, parse, retriever, a)
    ensures Provided(s0, image, parse, retriever, a)
  {
    if parse(image).Success? {
      var key := CacheKey(parse(image).value);
      if Known(Look(s0, key)) {
        GrownKeeps(s0, s, key);
      } else if Known(Look(s, key)) {
        assert key !in s0.newData;
        assert key in s.newData;
        var r :| CacheKey(r) == key && s.newData[key] == Outcome(Analysis(NormalizeRef(r), retriever));
        AnalysisErrorNonEmpty(NormalizeRef(r), retriever);
        assert a == Replay(Analysis(NormalizeRef(r), retriever));
      }
    }
  }

  class PlatformInspector {
    const retriever: Retriever
    const cache: PlatformCache
    /** The cache keys `AnalyzeManifest` was called for, in call order. */
    ghost var analysed: seq<string>

    /** `New`. */
    constructor (retriever: Retriever, cache: PlatformCache)
      ensures this.retriever == retriever && this.cache == cache && analysed == []
    {
      this.retriever := retriever;
      this.cache := cache;
      analysed := [];
    }

    /** `GetPlatforms`, with `parse` the reference parser (`ParseNormalizedNamed`). */
    method GetPlatforms(image: string, parse: string -> Result<Reference>) returns (r: Result<seq<P.DockerPlatform>>)
      requires cache.Valid()
      modifies this, cache
      ensures cache.Valid()
      ensures parse(image).Failure? ==>
        r == Failure(Wrap("parsing image reference", parse(image).error))
        && unchanged(cache) && analysed == old(analysed)
      ensures parse(image).Success? ==>
        var key := CacheKey(parse(image).value);
        var cached := old(cache.Answer(key));
        if cached.found then
          r == Success(cached.platforms) && unchanged(cache) && analysed == old(analysed)
        else if cached.err.Some? then
          r == Failure(Wrap("looking for cached data", cached.err.value))
          && unchanged(cache) && analysed == old(analysed)
        else
          var analysis := Analysis(NormalizeRef(parse(image).value), retriever);
          r == analysis && analysed == old(analysed) + [key]
          && cache.oldData == old(cache.oldData)
          && (cache.nop ==> cache.newData == old(cache.newData))
          && (!cache.nop ==> cache.newData == old(cache.newData)[key := Outcome(analysis)])
      ensures Fills(old(cache.State()), cache.State(), retriever)
      ensures Served(old(cache.State()), image, parse, retriever, r)
      ensures parse(image).Success? && !cache.nop ==> Remembers(cache.State(), CacheKey(parse(image).value), r)
    {
      var parsed := parse(image);
      if parsed.Failure? {
        return Failure(Wrap("parsing image reference", parsed.error));
      }
      var imageRef := NormalizeRef(parsed.value);
      var key := RefString(imageRef);

      var cached, ok, err := cache.Get(key);
      if err.Some? {
        return Failure(Wrap("looking for cached data", err.value));
      }
      if ok {
        return Success(cached);
      }

      analysed := analysed + [key];
      var platforms := AnalyzeManifest(imageRef, retriever);
      if platforms.Failure? {
        AnalysisErrorNonEmpty(imageRef, retriever);
        cache.SetErrorCache(key, platforms.error);
        return platforms;
      }
      cache.Set(key, platforms.value);
      return platforms;
    }

    /** Two lookups of images with the same cache key, with the YAML cache: the second lookup
        analyses no manifest (`mid` is the analysis log after the first), and it succeeds with
        the same platforms exactly when the first one does. */
    method GetPlatformsTwice(image: string, image': string, parse: string -> Result<Reference>)
      returns (first: Result<seq<P.DockerPlatform>>, second: Result<seq<P.DockerPlatform>>, ghost mid: seq<string>)
      requires cache.Valid() && !cache.nop
      requires parse(image).Success? <==> parse(image').Success?
      requires parse(image).Success? ==> CacheKey(parse(image).value) == CacheKey(parse(image').value)
      modifies this, cache
      ensures |mid| <= |old(analysed)| + 1
      ensures analysed == mid
      ensures first.Success? <==> second.Success?
      ensures first.Success? ==> first.value == second.value
    {
      first := GetPlatforms(image, parse);
      mid := analysed;
      second := GetPlatforms(image', parse);
    }
  }
}
