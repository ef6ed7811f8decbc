/** `AnalyzeManifest`: the platforms an image reference resolves to, read from its manifest. */
module ManifestAnalysis {
  import opened Wrappers
  import P = Platform

  type DockerPlatform = P.DockerPlatform

  /** A normalized, named image reference: a repository name with an optional tag and digest. */
  datatype Reference = Reference(name: string, tag: Option<string>, digest: Option<string>)

  /** The text form `name[:tag][@digest]`. */
  function RefString(r: Reference): (s: string)
    ensures |s| >= |r.name| && s[..|r.name|] == r.name
  {
    r.name
    + (if r.tag.Some? then ":" + r.tag.value else "")
    + (if r.digest.Some? then "@" + r.digest.value else "")
  }

  /** One entry of a manifest list: the digest of an image and the platform it declares. */
  datatype Instance = Instance(digest: string, platform: DockerPlatform)

  /** What the registry returns for a reference, once its media type is known and the blob is
      parsed: a multi-image manifest list, a single-image manifest naming its config blob, a
      single-image manifest that carries its own platform (schema 1, whose history holds the
      image config), an image config, or a blob that does not parse as the media type announces. */
  datatype Blob =
    | ManifestList(instances: seq<Instance>)
    | ImageManifest(configDigest: string)
    | SelfDescribedManifest(os: string, architecture: string, variant: string)
    | ImageConfig(os: string, architecture: string, variant: string)
    | Unparsable(multiImage: bool, reason: Error)

  /** The manifest retriever: fetches and parses the blob a reference text designates. */
  type Retriever = string -> Result<Blob>

  /** Instances that declare neither an operating system nor an architecture. */
  predicate Unknown(i: Instance) {
    i.platform.os == "unknown" && i.platform.architecture == "unknown"
  }

  /** The platforms of the instances that are not `unknown/unknown`, in order. */
  function Filtered(instances: seq<Instance>): (r: seq<DockerPlatform>)
    ensures |r| <= |instances|
    ensures forall k :: 0 <= k < |r| ==> !(r[k].os == "unknown" && r[k].architecture == "unknown")
  {
    if |instances| == 0 then []
    else
      var last := instances[|instances| - 1];
      Filtered(instances[..|instances| - 1]) + (if Unknown(last) then [] else [last.platform])
  }

  /** `list.Instance(digest)`: the position of the first instance of the list with that digest. */
  function FirstIndex(instances: seq<Instance>, digest: string): (k: nat)
    requires exists i :: 0 <= i < |instances| && instances[i].digest == digest
    ensures k < |instances| && instances[k].digest == digest
    ensures forall j :: 0 <= j < k ==> instances[j].digest != digest
  {
    if instances[0].digest == digest then 0
    else
      assert exists i :: 0 <= i < |instances[1..]| && instances[1..][i].digest == digest by {
        var i :| 0 <= i < |instances| && instances[i].digest == digest;
        assert instances[1..][i - 1] == instances[i];
      }
      1 + FirstIndex(instances[1..], digest)
  }

  /** The instances as the loop over `list.Instances()` sees them: each digest of the list,
      resolved to the first instance that carries it. */
  function Resolved(instances: seq<Instance>): (r: seq<Instance>)
    ensures |r| == |instances|
    ensures forall i :: 0 <= i < |instances| ==> r[i].digest == instances[i].digest
  {
    seq(|instances|, i requires 0 <= i < |instances| => instances[FirstIndex(instances, instances[i].digest)])
  }

  /** The platforms of the listed instances that are not `unknown/unknown`, in list order, each
      read from the first instance with its digest. */
  function KnownPlatforms(instances: seq<Instance>): (r: seq<DockerPlatform>)
    ensures |r| <= |instances|
    ensures forall k :: 0 <= k < |r| ==> !(r[k].os == "unknown" && r[k].architecture == "unknown")
  {
    Filtered(Resolved(instances))
  }

  /** The reference text of the config blob: the image name with the config digest. */
  function ConfigReference(ref: Reference, configDigest: string): string {
    ref.name + "@" + configDigest
  }

  /** The outcome `AnalyzeManifest` computes for a reference and a retriever. */
  function Analysis(ref: Reference, retriever: Retriever): Result<seq<DockerPlatform>> {
    match retriever(RefString(ref))
    case Failure(e) => Failure(Wrap("retrieving manifest", e))
    case Success(ManifestList(instances)) => Success(KnownPlatforms(instances))
    case Success(Unparsable(true, e)) => Failure(Wrap("parsing manifest list", e))
    case Success(Unparsable(false, e)) => Failure(Wrap("parsing manifest", e))
    case Success(ImageConfig(_, _, _)) => Failure(Wrap("parsing manifest", Error("not an image manifest")))
    case Success(SelfDescribedManifest(os, architecture, variant)) =>
      Success([P.DockerPlatform(os, architecture, variant)])
    case Success(ImageManifest(configDigest)) =>
      match retriever(ConfigReference(ref, configDigest))
      case Failure(e) => Failure(Wrap("inspecting manifest", Wrap("retrieving config", e)))
      case Success(ImageConfig(os, architecture, variant)) =>
        Success([P.DockerPlatform(os, architecture, variant)])
      case Success(_) => Failure(Wrap("inspecting manifest", Error("invalid image config")))
  }

  method AnalyzeManifest(imageRef: Reference, retriever: Retriever) returns (r: Result<seq<DockerPlatform>>)
    ensures r == Analysis(imageRef, retriever)
  {
    var manifest := retriever(RefString(imageRef));
    if manifest.Failure? {
      return Failure(Wrap("retrieving manifest", manifest.error));
    }
    match manifest.value {
      case ManifestList(instances) =>
        var platforms := ListPlatforms(instances);
        return Success(platforms);
      case Unparsable(multiImage, e) =>
        if multiImage {
          return Failure(Wrap("parsing manifest list", e));
        }
        return Failure(Wrap("parsing manifest", e));
      case ImageConfig(_, _, _) =>
        return Failure(Wrap("parsing manifest", Error("not an image manifest")));
      case SelfDescribedManifest(os, architecture, variant) =>
        return Success([P.DockerPlatform(os, architecture, variant)]);
      case ImageManifest(configDigest) =>
        var config := retriever(ConfigReference(imageRef, configDigest));
        if config.Failure? {
          return Failure(Wrap("inspecting manifest", Wrap("retrieving config", config.error)));
        }
        if !config.value.ImageConfig? {
          return Failure(Wrap("inspecting manifest", Error("invalid image config")));
        }
        var image := config.value;
        return Success([P.DockerPlatform(image.os, image.architecture, image.variant)]);
    }
  }

  /** The instance loop of `AnalyzeManifest`: every listed digest looked up in the list, and the
      platform of each instance found kept unless it is `unknown/unknown`. */
  method ListPlatforms(instances: seq<Instance>) returns (platforms: seq<DockerPlatform>)
    ensures platforms == KnownPlatforms(instances)
  {
    platforms := [];
    ghost var resolved := Resolved(instances);
    for i := 0 to |instances|
      invariant platforms == Filtered(resolved[..i])
    {
      assert resolved[..i + 1][..i] == resolved[..i];
      var instance := instances[FirstIndex(instances, instances[i].digest)];
      assert instance == resolved[i];
      if Unknown(instance) {
        continue;
      }
      platforms := platforms + [instance.platform];
    }
    assert resolved[..|instances|] == resolved;
  }

  /** A failed manifest fetch is an error, carrying the retriever's message, and no platforms. */
  lemma RetrievalFailure(ref: Reference, retriever: Retriever)
    requires retriever(RefString(ref)).Failure?
    ensures Analysis(ref, retriever).Failure?
    ensures var m := Analysis(ref, retriever).error.msg; var c := retriever(RefString(ref)).error.msg;
      |m| > |c| && m[|m| - |c|..] == c
  {
  }

  /** Filtering distributes over concatenation: the result keeps instance order and repeats. */
  lemma {:induction false} FilteredAppend(a: seq<Instance>, b: seq<Instance>)
    ensures Filtered(a + b) == Filtered(a) + Filtered(b)
    decreases |b|
  {
    if |b| == 0 {
      assert a + b == a;
    } else {
      var b' := b[..|b| - 1];
      assert (a + b)[..|a + b| - 1] == a + b';
      assert (a + b)[|a + b| - 1] == b[|b| - 1];
      FilteredAppend(a, b');
    }
  }

  /** A single instance is dropped exactly when both its OS and architecture are "unknown"; an
      instance with only one of them unknown is kept. */
  lemma FilteredOne(i: Instance)
    ensures Filtered([i]) == if Unknown(i) then [] else [i.platform]
  {
    assert [i][..0] == [];
  }

  /** Without `unknown/unknown` instances the result is every instance platform, in order. */
  lemma {:induction false} FilteredAllKnown(instances: seq<Instance>)
    requires forall k :: 0 <= k < |instances| ==> !Unknown(instances[k])
    ensures |Filtered(instances)| == |instances|
    ensures forall k :: 0 <= k < |instances| ==> Filtered(instances)[k] == instances[k].platform
    decreases |instances|
  {
    if |instances| > 0 {
      FilteredAllKnown(instances[..|instances| - 1]);
    }
  }

  /** Each listed digest is resolved to the first instance that carries it. */
  lemma ResolvedFirst(instances: seq<Instance>, i: nat, j: nat)
    requires i < |instances| && j < |instances|
    requires instances[j].digest == instances[i].digest
    ensures Resolved(instances)[i] == instances[FirstIndex(instances, instances[i].digest)]
    ensures FirstIndex(instances, instances[i].digest) <= j
  {
  }

  /** With distinct digests every instance is resolved to itself, so the platforms are those of
      the known instances, in list order. */
  lemma DistinctDigests(instances: seq<Instance>)
    requires forall i, j :: 0 <= i < j < |instances| ==> instances[i].digest != instances[j].digest
    ensures Resolved(instances) == instances
    ensures KnownPlatforms(instances) == Filtered(instances)
  {
    forall i | 0 <= i < |instances|
      ensures Resolved(instances)[i] == instances[i]
    {
      var k := FirstIndex(instances, instances[i].digest);
      assert !(k < i) && !(i < k);
    }
  }

  /** A digest listed twice reads the platform of its first instance both times. */
  lemma RepeatedDigest(first: DockerPlatform, second: DockerPlatform)
    requires !(first.os == "unknown" && first.architecture == "unknown")
    ensures KnownPlatforms([Instance("d", first), Instance("d", second)]) == [first, first]
  {
    var instances := [Instance("d", first), Instance("d", second)];
    assert instances[0].digest == "d";
    assert FirstIndex(instances, "d") == 0;
    assert Resolved(instances) == [Instance("d", first), Instance("d", first)];
    assert Resolved(instances) == [Instance("d", first)] + [Instance("d", first)];
    FilteredAppend([Instance("d", first)], [Instance("d", first)]);
    FilteredOne(Instance("d", first));
  }

  /** A manifest list yields its known instance platforms, never more than there are instances. */
  lemma ManifestListAnalysis(ref: Reference, retriever: Retriever, instances: seq<Instance>)
    requires retriever(RefString(ref)) == Success(ManifestList(instances))
    ensures Analysis(ref, retriever) == Success(KnownPlatforms(instances))
    ensures |Analysis(ref, retriever).value| <= |instances|
  {
  }

  /** A single-image manifest is resolved through a second fetch at `name@configDigest`: it yields
      exactly the config's platform, and a failure of that fetch is an error. */
  lemma SingleImageAnalysis(ref: Reference, retriever: Retriever, configDigest: string)
    requires retriever(RefString(ref)) == Success(ImageManifest(configDigest))
    ensures retriever(ref.name + "@" + configDigest).Failure? ==> Analysis(ref, retriever).Failure?
    ensures retriever(ref.name + "@" + configDigest).Success? && retriever(ref.name + "@" + configDigest).value.ImageConfig? ==>
      var c := retriever(ref.name + "@" + configDigest).value;
      Analysis(ref, retriever) == Success([P.DockerPlatform(c.os, c.architecture, c.variant)])
  {
  }

  /** A manifest that carries its own platform is inspected without a second fetch: it yields
      exactly that platform, and any retriever that answers the same for the reference itself
      gives the same outcome. */
  lemma SelfDescribedAnalysis(ref: Reference, retriever: Retriever, other: Retriever,
                              os: string, architecture: string, variant: string)
    requires retriever(RefString(ref)) == Success(SelfDescribedManifest(os, architecture, variant))
    requires other(RefString(ref)) == retriever(RefString(ref))
    ensures Analysis(ref, retriever) == Success([P.DockerPlatform(os, architecture, variant)])
    ensures Analysis(ref, other) == Analysis(ref, retriever)
  {
  }
}
