/** The in-memory part of the registry client's cache (pkg/registry/cache.go):
    package metadata with a time stamp, valid for `maxAge`, and tarball paths
    that are valid while their file exists. Time is an integer clock in Go
    `time.Duration` units (nanoseconds) passed in as `now`; what the disk holds
    is passed in as well. The metadata type is a parameter `M`. */
module RegistryCache {
  import opened Wrappers

  const Second: int := 1_000_000_000
  const Hour: int := 3600 * Second
  /** `NewCache` keeps metadata for 24 hours. */
  const DefaultMaxAge: int := 24 * Hour

  datatype Entry<M> = Entry(data: M, timestamp: int)

  /** What `loadMetadataFromDisk` finds: the decoded metadata and the file's
      modification time (absent when reading, decoding or stat fails). */
  datatype DiskEntry<M> = DiskEntry(data: M, modTime: int)

  /** `time.Since(t) > maxAge`. */
  predicate Expired(now: int, t: int, maxAge: int) {
    now - t > maxAge
  }

  /** `GetPackageMetadata` on the metadata map: the new map and the answer. */
  function LookupMetadata<M>(metadata: map<string, Entry<M>>, name: string, now: int, maxAge: int, disk: Option<DiskEntry<M>>)
    : (r: (map<string, Entry<M>>, Option<M>))
    ensures name in metadata && !Expired(now, metadata[name].timestamp, maxAge) ==> r == (metadata, Some(metadata[name].data))
    ensures name in metadata && Expired(now, metadata[name].timestamp, maxAge) ==> r == (metadata - {name}, None)
    ensures name !in metadata && disk.Some? && !Expired(now, disk.value.modTime, maxAge) ==>
      r == (metadata[name := Entry(disk.value.data, disk.value.modTime)], Some(disk.value.data))
    ensures name !in metadata && (disk.None? || Expired(now, disk.value.modTime, maxAge)) ==> r == (metadata, None)
  {
    if name !in metadata then
      match disk
      case None => (metadata, None)
      case Some(d) =>
        if Expired(now, d.modTime, maxAge) then (metadata, None)
        else (metadata[name := Entry(d.data, d.modTime)], Some(d.data))
    else if Expired(now, metadata[name].timestamp, maxAge) then (metadata - {name}, None)
    else (metadata, Some(metadata[name].data))
  }

  /** The map `CleanExpired` leaves: the entries that have not expired. */
  function FreshEntries<M>(metadata: map<string, Entry<M>>, now: int, maxAge: int): map<string, Entry<M>> {
    map k | k in metadata && !Expired(now, metadata[k].timestamp, maxAge) :: metadata[k]
  }

  /** `GetTarball` on the tarball map: a stored path whose file is gone is
      dropped and reported as a miss. */
  function LookupTarball(tarballs: map<string, string>, key: string, missing: string -> bool)
    : (r: (map<string, string>, Option<string>))
    ensures key !in tarballs ==> r == (tarballs, None)
    ensures key in tarballs && missing(tarballs[key]) ==> r == (tarballs - {key}, None)
    ensures key in tarballs && !missing(tarballs[key]) ==> r == (tarballs, Some(tarballs[key]))
  {
    if key !in tarballs then (tarballs, None)
    else if missing(tarballs[key]) then (tarballs - {key}, None)
    else (tarballs, Some(tarballs[key]))
  }

  class Cache<M> {
    const dir: string
    var metadata: map<string, Entry<M>>
    var tarballs: map<string, string>
    var maxAge: int

    /** `NewCache`: empty maps, 24 hours. */
    constructor (cacheDir: string)
      ensures dir == cacheDir && metadata == map[] && tarballs == map[] && maxAge == DefaultMaxAge
    {
      dir := cacheDir;
      metadata := map[];
      tarballs := map[];
      maxAge := DefaultMaxAge;
    }

    method GetPackageMetadata(name: string, now: int, disk: Option<DiskEntry<M>>) returns (data: Option<M>)
      modifies this
      ensures (metadata, data) == LookupMetadata(old(metadata), name, now, maxAge, disk)
      ensures tarballs == old(tarballs) && maxAge == old(maxAge)
    {
      if name !in metadata {
        data := LoadMetadataFromDisk(name, now, disk);
        return;
      }
      var entry := metadata[name];
      if now - entry.timestamp > maxAge {
        metadata := metadata - {name};
        return None;
      }
      data := Some(entry.data);
    }

    /** `loadMetadataFromDisk`, given what the disk holds: a fresh file is
        cached in memory under its modification time. */
    method LoadMetadataFromDisk(name: string, now: int, disk: Option<DiskEntry<M>>) returns (data: Option<M>)
      requires name !in metadata
      modifies this
      ensures (metadata, data) == LookupMetadata(old(metadata), name, now, maxAge, disk)
      ensures tarballs == old(tarballs) && maxAge == old(maxAge)
    {
      if disk.None? {
        return None;
      }
      if now - disk.value.modTime > maxAge {
        return None;
      }
      metadata := metadata[name := Entry(disk.value.data, disk.value.modTime)];
      data := Some(disk.value.data);
    }

    /** `SetPackageMetadata`: stored with the current time (the disk copy is
        not modelled). */
    method SetPackageMetadata(name: string, data: M, now: int)
      modifies this
      ensures metadata == old(metadata)[name := Entry(data, now)]
      ensures tarballs == old(tarballs) && maxAge == old(maxAge)
    {
      metadata := metadata[name := Entry(data, now)];
    }

    method GetTarball(key: string, missing: string -> bool) returns (path: Option<string>)
      modifies this
      ensures (tarballs, path) == LookupTarball(old(tarballs), key, missing)
      ensures metadata == old(metadata) && maxAge == old(maxAge)
    {
      if key !in tarballs {
        return None;
      }
      var p := tarballs[key];
      if missing(p) {
        tarballs := tarballs - {key};
        return None;
      }
      path := Some(p);
    }

    method SetTarball(key: string, path: string)
      modifies this
      ensures tarballs == old(tarballs)[key := path]
      ensures metadata == old(metadata) && maxAge == old(maxAge)
    {
      tarballs := tarballs[key := path];
    }

    /** `Clear`, in memory: both maps emptied. */
    method Clear()
      modifies this
      ensures metadata == map[] && tarballs == map[] && maxAge == old(maxAge)
    {
      metadata := map[];
      tarballs := map[];
    }

    /** `CleanExpired`: every expired entry is deleted, every other one kept. */
    method CleanExpired(now: int)
      modifies this
      ensures metadata == FreshEntries(old(metadata), now, maxAge)
      ensures tarballs == old(tarballs) && maxAge == old(maxAge)
    {
      var todo := metadata.Keys;
      ghost var start := metadata;
      while todo != {}
        invariant todo <= start.Keys
        invariant metadata == map k | k in start && (k in todo || !Expired(now, start[k].timestamp, maxAge)) :: start[k]
        invariant tarballs == old(tarballs) && maxAge == old(maxAge)
        decreases todo
      {
        var name :| name in todo;
        if now - metadata[name].timestamp > maxAge {
          metadata := metadata - {name};
        }
        todo := todo - {name};
      }
    }
  }

  // ---------------------------------------------------------------------------
  // Properties

  /** An in-memory entry is a hit exactly while it has not expired, and an
      expired one is deleted by the lookup. */
  lemma HitIffFresh<M>(metadata: map<string, Entry<M>>, name: string, now: int, maxAge: int, disk: Option<DiskEntry<M>>)
    requires name in metadata
    ensures LookupMetadata(metadata, name, now, maxAge, disk).1.Some? <==> now - metadata[name].timestamp <= maxAge
    ensures LookupMetadata(metadata, name, now, maxAge, disk).1.None? ==> name !in LookupMetadata(metadata, name, now, maxAge, disk).0
  {
  }

  /** Metadata set at time `t` is returned unchanged by a lookup within
      `maxAge` of `t`, whatever the disk holds, and the lookup changes nothing. */
  lemma SetThenGet<M>(metadata: map<string, Entry<M>>, name: string, data: M, t: int, now: int, maxAge: int, disk: Option<DiskEntry<M>>)
    requires now - t <= maxAge
    ensures var m := metadata[name := Entry(data, t)];
      LookupMetadata(m, name, now, maxAge, disk) == (m, Some(data))
  {
  }

  /** `CleanExpired` removes exactly the expired entries. */
  lemma CleanRemovesExactlyExpired<M>(metadata: map<string, Entry<M>>, now: int, maxAge: int, name: string)
    ensures name in FreshEntries(metadata, now, maxAge) <==> name in metadata && now - metadata[name].timestamp <= maxAge
    ensures name in FreshEntries(metadata, now, maxAge) ==> FreshEntries(metadata, now, maxAge)[name] == metadata[name]
  {
  }

  /** Cleaning first does not change what a lookup at the same time answers
      when the disk holds nothing; it does when the disk holds a fresh copy of
      an entry that expired in memory: before cleaning the expired entry hides
      the disk copy, after cleaning the disk copy is found. */
  lemma CleanThenLookup<M>(metadata: map<string, Entry<M>>, name: string, now: int, maxAge: int, disk: Option<DiskEntry<M>>)
    ensures disk.None? ==>
      LookupMetadata(FreshEntries(metadata, now, maxAge), name, now, maxAge, disk).1 == LookupMetadata(metadata, name, now, maxAge, disk).1
    ensures (name in metadata && Expired(now, metadata[name].timestamp, maxAge)
             && disk.Some? && !Expired(now, disk.value.modTime, maxAge)) ==>
      LookupMetadata(metadata, name, now, maxAge, disk).1 == None
      && LookupMetadata(FreshEntries(metadata, now, maxAge), name, now, maxAge, disk).1 == Some(disk.value.data)
  {
    var kept := FreshEntries(metadata, now, maxAge);
    if name in metadata && Expired(now, metadata[name].timestamp, maxAge) {
      assert name !in kept;
    }
  }

  /** A stored tarball path is returned while its file exists. */
  lemma SetThenGetTarball(tarballs: map<string, string>, key: string, path: string, missing: string -> bool)
    ensures !missing(path) ==> LookupTarball(tarballs[key := path], key, missing) == (tarballs[key := path], Some(path))
    ensures missing(path) ==> LookupTarball(tarballs[key := path], key, missing) == (tarballs - {key}, None)
  {
    if missing(path) {
      assert tarballs[key := path] - {key} == tarballs - {key};
    }
  }
}
