/** The platform cache: a snapshot read from the cache file plus a buffer of this run's writes. */
module Cache {
  import opened Wrappers
  import P = Platform

  type DockerPlatform = P.DockerPlatform

  /** One cache entry: the platforms of an image, or the message of the error its analysis
      produced (a negative entry). */
  datatype ImageData = ImageData(platforms: seq<DockerPlatform>, error: string)

  /** What a cache lookup reports: the cached platforms, whether they were found, and an error. */
  datatype Lookup = Lookup(platforms: seq<DockerPlatform>, found: bool, err: Option<Error>)

  const NotCached := Lookup([], false, None)

  /** The answer an entry gives: its error when it carries one, else its platforms. */
  function EntryLookup(d: ImageData): (r: Lookup)
    ensures r.found <==> d.error == ""
    ensures r.err.Some? <==> d.error != ""
    ensures r.err.Some? ==> r.err.value.msg == d.error && r.platforms == []
    ensures r.found ==> r.platforms == d.platforms
  {
    if d.error != "" then Lookup([], false, Some(Error(d.error))) else Lookup(d.platforms, true, None)
  }

  /** A lookup in the two layers: the run buffer first, then the snapshot. */
  function Consult(newData: map<string, ImageData>, oldData: map<string, ImageData>, image: string): (r: Lookup)
    ensures image in newData ==> r == EntryLookup(newData[image])
    ensures image !in newData && image in oldData ==> r == EntryLookup(oldData[image])
    ensures image !in newData && image !in oldData ==> r == NotCached
    ensures !(r.found && r.err.Some?)
  {
    if image in newData then EntryLookup(newData[image])
    else if image in oldData then EntryLookup(oldData[image])
    else NotCached
  }

  /** The contents of a cache at one moment: its kind, its snapshot and its buffer. */
  datatype CacheState = CacheState(nop: bool, oldData: map<string, ImageData>, newData: map<string, ImageData>)

  /** The answer `GetCachedPlatforms` gives for `image` in state `s`. */
  function Look(s: CacheState, image: string): Lookup {
    if s.nop then NotCached else Consult(s.newData, s.oldData, image)
  }

  /** An image the cache answers for: a cached platform list or a cached error. */
  predicate Known(l: Lookup) {
    l.found || l.err.Some?
  }

  /** From `s0` to `s1` the cache only gained buffered entries for images it did not answer
      for: the snapshot is untouched and every earlier buffered entry is still there. */
  ghost predicate Grown(s0: CacheState, s1: CacheState) {
    && s1.nop == s0.nop
    && s1.oldData == s0.oldData
    && (forall k :: k in s0.newData ==> k in s1.newData && s1.newData[k] == s0.newData[k])
    && (forall k :: k in s1.newData && k !in s0.newData ==> k !in s0.oldData)
  }

  /** The cache answers for `image`, and its answer agrees with `r`: cached platforms are the
      platforms of `r`, a cached error goes with a failed `r`. */
  predicate Remembers(s: CacheState, image: string, r: Result<seq<DockerPlatform>>) {
    var l := Look(s, image);
    && Known(l)
    && (l.found ==> r == Success(l.platforms))
    && (l.err.Some? ==> r.Failure?)
  }

  /** Growing twice is growing once. */
  lemma GrownTransitive(s0: CacheState, s1: CacheState, s2: CacheState)
    requires Grown(s0, s1) && Grown(s1, s2)
    ensures Grown(s0, s2)
  {
  }

  /** Once the cache answers for an image, growing it never changes that answer. */
  lemma GrownKeeps(s0: CacheState, s1: CacheState, image: string)
    requires Grown(s0, s1) && Known(Look(s0, image))
    ensures Look(s1, image) == Look(s0, image)
  {
  }

  /** What the cache remembers survives its growth. */
  lemma RemembersKept(s0: CacheState, s1: CacheState, image: string, r: Result<seq<DockerPlatform>>)
    requires Grown(s0, s1) && Remembers(s0, image, r)
    ensures Remembers(s1, image, r)
  {
    GrownKeeps(s0, s1, image);
  }

  /** The two implementations of the cache interface: the no-op cache (`nop`) and the cache backed
      by a YAML file, whose file is represented by the map it holds. */
  class PlatformCache {
    const nop: bool
    var oldData: map<string, ImageData>
    var newData: map<string, ImageData>

    /** The no-op cache holds nothing. */
    ghost predicate Valid()
      reads this
    {
      nop ==> oldData == map[] && newData == map[]
    }

    /** The current contents of the cache. */
    ghost function State(): CacheState
      reads this
    {
      CacheState(nop, oldData, newData)
    }

    /** The answer `GetCachedPlatforms` gives for `image` in the current state. */
    ghost function Answer(image: string): Lookup
      reads this
    {
      Look(State(), image)
    }

    /** `NewNopCache`. */
    constructor Nop()
      ensures nop && Valid() && oldData == map[] && newData == map[]
    {
      nop := true;
      oldData := map[];
      newData := map[];
    }

    /** `NewYAMLCache`: the snapshot is the content of the cache file, the buffer is empty. */
    constructor Open(file: map<string, ImageData>)
      ensures !nop && Valid() && oldData == file && newData == map[]
    {
      nop := false;
      oldData := file;
      newData := map[];
    }

    /** `GetCachedPlatforms`. */
    method Get(image: string) returns (platforms: seq<DockerPlatform>, found: bool, err: Option<Error>)
      ensures nop ==> Lookup(platforms, found, err) == NotCached
      ensures !nop ==> Lookup(platforms, found, err) == Consult(newData, oldData, image)
    {
      if nop {
        return [], false, None;
      }
      var ok := image in newData;
      var imageData: ImageData;
      if ok {
        imageData := newData[image];
      } else {
        ok := image in oldData;
        if ok {
          imageData := oldData[image];
        }
      }
      if !ok {
        return [], false, None;
      }
      if imageData.error != "" {
        return [], false, Some(Error(imageData.error));
      }
      return imageData.platforms, true, None;
    }

    /** `SetCachedPlatforms`: buffers a positive entry; a later lookup of that image finds the
        platforms, and every other image answers as before. */
    method Set(image: string, platforms: seq<DockerPlatform>)
      requires Valid()
      modifies this
      ensures Valid() && oldData == old(oldData)
      ensures nop ==> newData == old(newData)
      ensures !nop ==> newData == old(newData)[image := ImageData(platforms, "")]
      ensures !nop ==> Answer(image) == Lookup(platforms, true, None)
      ensures forall other :: other != image ==> Answer(other) == old(Answer(other))
    {
      if !nop {
        newData := newData[image := ImageData(platforms, "")];
      }
    }

    /** `SetErrorCache`: buffers a negative entry holding the error's message. */
    method SetErrorCache(image: string, err: Error)
      requires Valid()
      modifies this
      ensures Valid() && oldData == old(oldData)
      ensures nop ==> newData == old(newData)
      ensures !nop ==> newData == old(newData)[image := ImageData([], err.msg)]
      ensures !nop && err.msg != "" ==> Answer(image) == Lookup([], false, Some(err))
      ensures forall other :: other != image ==> Answer(other) == old(Answer(other))
    {
      if !nop {
        newData := newData[image := ImageData([], err.msg)];
      }
    }

    /** `ClearCachedPlatforms`: drops the buffered entry only, so a snapshot entry shows again. */
    method Clear(image: string)
      requires Valid()
      modifies this
      ensures Valid() && oldData == old(oldData)
      ensures nop ==> newData == old(newData)
      ensures !nop ==> newData == old(newData) - {image}
      ensures !nop ==> Answer(image) == Consult(map[], oldData, image)
      ensures forall other :: other != image ==> Answer(other) == old(Answer(other))
    {
      if !nop {
        newData := newData - {image};
      }
    }

    /** `WriteBack` of the YAML cache, with `file` the current content of the cache file. With an
        empty buffer nothing happens and nothing is written. Otherwise the snapshot becomes the old
        snapshot overlaid with the file and then with the buffer, the buffer is emptied, and the
        new snapshot is what is written to the file. */
    method WriteBack(file: map<string, ImageData>) returns (written: Option<map<string, ImageData>>)
      requires !nop
      modifies this
      ensures old(newData) == map[] ==> written == None && oldData == old(oldData) && newData == map[]
      ensures old(newData) != map[] ==>
        oldData == old(oldData) + file + old(newData) && newData == map[] && written == Some(oldData)
      ensures forall image :: image in old(newData) ==> Answer(image) == old(Answer(image))
    {
      if |newData| == 0 {
        assert newData == map[];
        return None;
      }
      oldData := Overlay(oldData + file, newData);
      newData := map[];
      return Some(oldData);
    }
  }

  /** The loop of `WriteBack` that copies every buffered entry over the snapshot. */
  method Overlay(base: map<string, ImageData>, updates: map<string, ImageData>) returns (m: map<string, ImageData>)
    ensures m.Keys == base.Keys + updates.Keys
    ensures forall k :: k in updates ==> m[k] == updates[k]
    ensures forall k :: k in base && k !in updates ==> m[k] == base[k]
  {
    m := base;
    var pending := updates.Keys;
    while pending != {}
      invariant pending <= updates.Keys
      invariant forall k :: k in m <==> k in base || (k in updates && k !in pending)
      invariant forall k :: k in m ==>
        m[k] == if k in updates && k !in pending then updates[k] else base[k]
      decreases pending
    {
      var image :| image in pending;
      m := m[image := updates[image]];
      pending := pending - {image};
    }
  }

  /** The no-op cache reports a miss with no error whatever happened before. */
  lemma NopNeverFinds(c: PlatformCache, image: string)
    requires c.nop
    ensures c.Answer(image) == NotCached
  {
  }

  /** The buffer shadows the snapshot: once an image is buffered, the snapshot is irrelevant. */
  lemma BufferFirst(newData: map<string, ImageData>, oldData: map<string, ImageData>,
                    other: map<string, ImageData>, image: string)
    requires image in newData
    ensures Consult(newData, oldData, image) == Consult(newData, other, image)
  {
  }

  /** After a write-back, images written this run answer as before it; other images answer as
      the file overlaid on the old snapshot. */
  lemma WriteBackLookup(newData: map<string, ImageData>, oldData: map<string, ImageData>,
                        file: map<string, ImageData>, image: string)
    ensures image in newData ==>
      Consult(map[], oldData + file + newData, image) == Consult(newData, oldData, image)
    ensures image !in newData ==>
      Consult(map[], oldData + file + newData, image) == Consult(map[], oldData + file, image)
  {
  }
}
