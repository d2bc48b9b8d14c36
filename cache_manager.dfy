/**
 * The incremental-analysis cache (core/cache_manager.py): an in-memory map
 * from a file's path relative to the project root to the digest of its
 * content and the analysis result, with a `dirty` flag that says whether
 * the map differs from what was last written. The cache file on disk, the
 * file system and the MD5 digest are parameters: `Load` takes what the
 * file holds, `Save` returns what it writes.
 */
module CacheManagement {
  import opened Wrappers
  import Strings

  /** `CACHE_VERSION`. */
  const CacheVersion: string := "1.0.0"
  /** `CACHE_FILENAME`. */
  const CacheFilename: string := "analysis_cache.pkl"

  /** A path, as its components. */
  type Path = seq<string>

  /** What a path holds when the cache reads it. */
  datatype FileState = Readable(content: seq<bv8>) | Unreadable

  /** `{"hash": ..., "data": ...}`. */
  datatype CacheEntry<D> = CacheEntry(hash: string, data: D)

  /**
   * The cache file: missing, unreadable (unpickling fails), or a pickled
   * dictionary with its `_meta` (empty when absent) and its `entries`.
   */
  datatype Stored<D> = Missing | Corrupt | Pickled(meta: map<string, string>, entries: Option<map<string, CacheEntry<D>>>)

  /**
   * `str(file.relative_to(root))`: `None` (a `ValueError`) outside the root;
   * the root itself is `.`; otherwise the remaining components joined by the
   * operating system's separator.
   */
  function RelativeKey(root: Path, file: Path, separator: char): (r: Option<string>)
    ensures r.Some? <==> root <= file
  {
    if root <= file then
      Some(if |file| == |root| then "." else Strings.Join(file[|root|..], separator))
    else None
  }

  /** `_compute_file_hash`: the digest of the content, or `""` when the file cannot be read. */
  function ComputeFileHash(state: FileState, md5: seq<bv8> -> string): string
  {
    match state
    case Readable(content) => md5(content)
    case Unreadable => ""
  }

  /** The `_meta` a save writes. */
  function SavedMeta(fingerprint: string): map<string, string>
  {
    map["version" := CacheVersion, "config_fingerprint" := fingerprint]
  }

  /** What `load` puts in `cache_data`: the saved entries when version and fingerprint match, else nothing. */
  function LoadedEntries<D>(stored: Stored<D>, fingerprint: string): (r: map<string, CacheEntry<D>>)
    ensures stored.Missing? || stored.Corrupt? ==> r == map[]
    ensures stored.Pickled? && ("version" !in stored.meta || stored.meta["version"] != CacheVersion) ==> r == map[]
    ensures stored.Pickled? && ("config_fingerprint" !in stored.meta || stored.meta["config_fingerprint"] != fingerprint)
            ==> r == map[]
  {
    match stored
    case Missing => map[]
    case Corrupt => map[]
    case Pickled(meta, entries) =>
      if "version" !in meta || meta["version"] != CacheVersion then map[]
      else if "config_fingerprint" !in meta || meta["config_fingerprint"] != fingerprint then map[]
      else entries.GetOr(map[])
  }

  /** Saving and loading with the same fingerprint gives back the entries. */
  lemma SaveLoadRoundTrip<D>(entries: map<string, CacheEntry<D>>, fingerprint: string)
    ensures LoadedEntries(Pickled(SavedMeta(fingerprint), Some(entries)), fingerprint) == entries
  {
  }

  /** A cache saved under another configuration loads empty. */
  lemma OtherConfigLoadsEmpty<D>(entries: map<string, CacheEntry<D>>, saved: string, current: string)
    requires saved != current
    ensures LoadedEntries(Pickled(SavedMeta(saved), Some(entries)), current) == map[]
  {
  }

  /** The keys of the current files, when all of them lie under the root. */
  ghost function CurrentKeys(root: Path, files: seq<Path>, separator: char): set<string>
  {
    set i | 0 <= i < |files| && RelativeKey(root, files[i], separator).Some? :: RelativeKey(root, files[i], separator).value
  }

  class CacheManager<D> {
    const projectRoot: Path
    const configFingerprint: string
    const separator: char
    var cacheData: map<string, CacheEntry<D>>
    var dirty: bool

    /** A new manager has no entries and nothing to write. */
    constructor(projectRoot: Path, configFingerprint: string, separator: char)
      ensures this.projectRoot == projectRoot && this.configFingerprint == configFingerprint
      ensures this.separator == separator
      ensures cacheData == map[] && !dirty
    {
      this.projectRoot := projectRoot;
      this.configFingerprint := configFingerprint;
      this.separator := separator;
      cacheData := map[];
      dirty := false;
    }

    /** `load`: replaces the entries with what the cache file holds, if it is valid for this configuration. */
    method Load(stored: Stored<D>)
      modifies this
      ensures cacheData == LoadedEntries(stored, configFingerprint)
      ensures dirty == old(dirty)
    {
      if stored.Missing? {
        cacheData := map[];
        return;
      }
      if stored.Corrupt? {
        cacheData := map[];
        return;
      }
      var meta := stored.meta;
      if "version" !in meta || meta["version"] != CacheVersion {
        cacheData := map[];
        return;
      }
      if "config_fingerprint" !in meta || meta["config_fingerprint"] != configFingerprint {
        cacheData := map[];
        return;
      }
      cacheData := stored.entries.GetOr(map[]);
    }

    /**
     * `get`: the cached result for a file under the root whose entry's
     * digest matches the file's current digest; `None` otherwise.
     */
    method Get(file: Path, fs: Path -> FileState, md5: seq<bv8> -> string) returns (r: Option<D>)
      ensures var key := RelativeKey(projectRoot, file, separator);
              r.Some? <==> key.Some? && key.value in cacheData
                           && cacheData[key.value].hash == ComputeFileHash(fs(file), md5)
      ensures var key := RelativeKey(projectRoot, file, separator);
              r.Some? ==> r.value == cacheData[key.value].data
    {
      var relative := RelativeKey(projectRoot, file, separator);
      if relative.None? {
        return None;
      }
      if relative.value !in cacheData {
        return None;
      }
      var entry := cacheData[relative.value];
      var currentHash := ComputeFileHash(fs(file), md5);
      if entry.hash != currentHash {
        return None;
      }
      return Some(entry.data);
    }

    /** `update`: records the file's current digest and result and marks the cache dirty; ignores files outside the root. */
    method Update(file: Path, data: D, fs: Path -> FileState, md5: seq<bv8> -> string)
      modifies this
      ensures var key := RelativeKey(projectRoot, file, separator);
              key.None? ==> cacheData == old(cacheData) && dirty == old(dirty)
      ensures var key := RelativeKey(projectRoot, file, separator);
              key.Some? ==> cacheData == old(cacheData)[key.value := CacheEntry(ComputeFileHash(fs(file), md5), data)] && dirty
    {
      var relative := RelativeKey(projectRoot, file, separator);
      if relative.None? {
        return;
      }
      var fileHash := ComputeFileHash(fs(file), md5);
      cacheData := cacheData[relative.value := CacheEntry(fileHash, data)];
      dirty := true;
    }

    /** The relative keys of the current files, or `None` when one of them lies outside the root. */
    method RelativeKeys(files: seq<Path>) returns (r: Option<set<string>>)
      ensures r.None? <==> exists i :: 0 <= i < |files| && RelativeKey(projectRoot, files[i], separator).None?
      ensures r.Some? ==> r.value == CurrentKeys(projectRoot, files, separator)
    {
      var keys: set<string> := {};
      var i := 0;
      while i < |files|
        invariant 0 <= i <= |files|
        invariant forall j :: 0 <= j < i ==> RelativeKey(projectRoot, files[j], separator).Some?
        invariant keys == CurrentKeys(projectRoot, files[..i], separator)
      {
        var relative := RelativeKey(projectRoot, files[i], separator);
        if relative.None? {
          return None;
        }
        KeysStep(projectRoot, files, separator, i);
        keys := keys + {relative.value};
        i := i + 1;
      }
      assert files[..i] == files;
      return Some(keys);
    }

    /**
     * `prune`: deletes the entries of files that are no longer present and
     * marks the cache dirty when it deleted any; changes nothing when a
     * current file lies outside the root.
     */
    method Prune(currentFiles: seq<Path>)
      modifies this
      ensures (exists i :: 0 <= i < |currentFiles| && RelativeKey(projectRoot, currentFiles[i], separator).None?) ==>
              cacheData == old(cacheData) && dirty == old(dirty)
      ensures (forall i :: 0 <= i < |currentFiles| ==> RelativeKey(projectRoot, currentFiles[i], separator).Some?) ==>
              var current := CurrentKeys(projectRoot, currentFiles, separator);
              && cacheData == Restrict(old(cacheData), current)
              && dirty == (old(dirty) || exists k :: k in old(cacheData) && k !in current)
    {
      var current := RelativeKeys(currentFiles);
      if current.None? {
        return;
      }
      var keysToRemove := set k | k in cacheData && k !in current.value;
      if keysToRemove != {} {
        ghost var before := cacheData;
        var remaining := keysToRemove;
        while remaining != {}
          invariant remaining <= keysToRemove
          invariant cacheData == Without(before, keysToRemove - remaining)
          decreases remaining
        {
          var k :| k in remaining;
          WithoutOneMore(before, keysToRemove - remaining, k);
          cacheData := cacheData - {k};
          remaining := remaining - {k};
        }
        assert keysToRemove - remaining == keysToRemove;
        WithoutIsRestrict(before, current.value);
        dirty := true;
      } else {
        WithoutIsRestrict(cacheData, current.value);
        assert Without(cacheData, keysToRemove) == cacheData;
        assert forall k :: k in cacheData ==> k in current.value by {
          forall k | k in cacheData ensures k in current.value {
            assert k !in keysToRemove;
          }
        }
      }
    }

    /**
     * `save`: when dirty, writes the version, the fingerprint and the
     * entries; a successful write clears `dirty`, a failed one leaves it set.
     * Returns what was written.
     */
    method Save(writeSucceeds: bool) returns (written: Option<Stored<D>>)
      modifies this
      ensures cacheData == old(cacheData)
      ensures !old(dirty) ==> written.None? && !dirty
      ensures old(dirty) && writeSucceeds ==>
              written == Some(Pickled(SavedMeta(configFingerprint), Some(cacheData))) && !dirty
      ensures old(dirty) && !writeSucceeds ==> written.None? && dirty
    {
      if !dirty {
        return None;
      }
      var payload := Pickled(SavedMeta(configFingerprint), Some(cacheData));
      if !writeSucceeds {
        return None;
      }
      dirty := false;
      return Some(payload);
    }
  }

  lemma KeysStep(root: Path, files: seq<Path>, separator: char, i: nat)
    requires i < |files| && RelativeKey(root, files[i], separator).Some?
    ensures CurrentKeys(root, files[..i + 1], separator)
            == CurrentKeys(root, files[..i], separator) + {RelativeKey(root, files[i], separator).value}
  {
    var a := files[..i];
    var b := files[..i + 1];
    forall k | k in CurrentKeys(root, b, separator)
      ensures k in CurrentKeys(root, a, separator) + {RelativeKey(root, files[i], separator).value}
    {
      var j :| 0 <= j < |b| && RelativeKey(root, b[j], separator).Some? && RelativeKey(root, b[j], separator).value == k;
      if j < i {
        assert a[j] == b[j];
      }
    }
    forall k | k in CurrentKeys(root, a, separator)
      ensures k in CurrentKeys(root, b, separator)
    {
      var j :| 0 <= j < |a| && RelativeKey(root, a[j], separator).Some? && RelativeKey(root, a[j], separator).value == k;
      assert b[j] == a[j];
    }
    assert b[i] == files[i];
  }

  /** The entries whose keys are in `keys`. */
  function Restrict<K(!new), V>(m: map<K, V>, keys: set<K>): (r: map<K, V>)
    ensures forall k :: k in r <==> k in m && k in keys
    ensures forall k :: k in r ==> r[k] == m[k]
  {
    map k | k in m && k in keys :: m[k]
  }

  /** The entries whose keys are not in `gone`. */
  function Without<K(!new), V>(m: map<K, V>, gone: set<K>): map<K, V>
  {
    map k | k in m && k !in gone :: m[k]
  }

  lemma WithoutOneMore<K(!new), V>(m: map<K, V>, gone: set<K>, k: K)
    ensures Without(m, gone) - {k} == Without(m, gone + {k})
  {
  }

  lemma WithoutIsRestrict<K(!new), V>(m: map<K, V>, keep: set<K>)
    ensures Without(m, set k | k in m && k !in keep) == Restrict(m, keep)
  {
  }

  /** After pruning, every entry belongs to a current file and keeps its value. */
  lemma PruneKeepsCurrent<D>(m: map<string, CacheEntry<D>>, current: set<string>)
    ensures Restrict(m, current).Keys <= current
    ensures forall k :: k in m && k in current ==> k in Restrict(m, current) && Restrict(m, current)[k] == m[k]
  {
  }

  /** After `update(f, d)`, a `get(f)` with the file's content unchanged returns `d`. */
  method UpdateThenGet<D>(cache: CacheManager<D>, file: Path, data: D, fs: Path -> FileState, md5: seq<bv8> -> string)
    returns (r: Option<D>)
    requires cache.projectRoot <= file
    modifies cache
    ensures r == Some(data) && cache.dirty
  {
    cache.Update(file, data, fs, md5);
    r := cache.Get(file, fs, md5);
  }

  /** A dirty cache saved successfully loads back, under the same configuration, into exactly its entries. */
  method SaveThenLoad<D>(cache: CacheManager<D>) returns (reloaded: CacheManager<D>)
    requires cache.dirty
    modifies cache
    ensures fresh(reloaded)
    ensures reloaded.cacheData == cache.cacheData && !cache.dirty && !reloaded.dirty
  {
    var written := cache.Save(true);
    reloaded := new CacheManager(cache.projectRoot, cache.configFingerprint, cache.separator);
    reloaded.Load(written.value);
  }
}
