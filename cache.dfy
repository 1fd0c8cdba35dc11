/** src/cache.rs: the two-tier cache. Entries live in an in-memory LRU map of
    `MAX_CACHE_SIZE` entries and on disk as a content file plus a `.meta`
    file under `CACHE_DIR`. */
module Cache {
  import opened Wrappers
  import opened Constants
  import opened Text
  import opened Http
  import opened Lru

  /** `CacheMeta`. */
  datatype CacheMeta = CacheMeta(contentType: string, isComplete: bool, totalSize: Option<U64>)

  /** `CacheEntry`. */
  datatype CacheEntry = CacheEntry(content: Bytes, meta: CacheMeta)

  /** A `.meta` file as the reader finds it: JSON that deserializes to a
      `CacheMeta`, text that does not, or a file that cannot be read. */
  datatype MetaFile = MetaJson(meta: CacheMeta) | MetaGarbage | MetaUnreadable

  /** The cache directory, by key: content files (`None` when the file exists
      but cannot be read), `.meta` files, and the paths whose writes fail. */
  datatype Disk = Disk(contents: map<string, Option<Bytes>>, metas: map<string, MetaFile>, unwritable: set<string>)

  /** `cache_dir.join(key)`. */
  function ContentPath(key: string): string {
    CACHE_DIR + "/" + key
  }

  /** `file_path.with_extension("meta")`, for keys without a dot. */
  function MetaPath(key: string): string {
    ContentPath(key) + ".meta"
  }

  /** The disk tier of `get`: the content file must exist, the `.meta` file
      must be readable and parse, and the content file must be readable. */
  function DiskRead(disk: Disk, key: string): (entry: Option<CacheEntry>)
    ensures entry.Some? <==>
      && key in disk.contents && disk.contents[key].Some?
      && key in disk.metas && disk.metas[key].MetaJson?
    ensures entry.Some? ==>
      entry.value == CacheEntry(disk.contents[key].value, disk.metas[key].meta)
  {
    if key !in disk.contents then None
    else if key !in disk.metas || !disk.metas[key].MetaJson? then None
    else match disk.contents[key]
      case None => None
      case Some(bytes) => Some(CacheEntry(bytes, disk.metas[key].meta))
  }

  datatype CacheState = CacheState(memory: LruState<string, CacheEntry>, disk: Disk)

  ghost predicate ValidCache(st: CacheState) {
    ValidState(st.memory, MAX_CACHE_SIZE)
  }

  /** `ProxyCache::get`: a memory hit is returned (and refreshed) without
      looking at the disk; otherwise the disk entry, if readable, is returned
      and copied into memory when it is no larger than `MAX_FILE_SIZE`. The
      disk itself is never changed by a read. */
  function CacheGet(st: CacheState, key: string): (r: (Option<CacheEntry>, CacheState))
    ensures r.1.disk == st.disk
    ensures key in st.memory.entries ==> r.0 == Some(st.memory.entries[key])
    ensures key !in st.memory.entries ==> r.0 == DiskRead(st.disk, key)
    ensures key in st.memory.entries ==> r.1.memory == LruGet(st.memory, key).1
    ensures key !in st.memory.entries && r.0.Some? && |r.0.value.content| <= MAX_FILE_SIZE ==>
      r.1.memory == LruPut(st.memory, MAX_CACHE_SIZE, key, r.0.value)
    ensures key !in st.memory.entries && (r.0.None? || |r.0.value.content| > MAX_FILE_SIZE) ==> r.1 == st
    ensures ValidCache(st) ==> ValidCache(r.1)
  {
    var (hit, memory) := LruGet(st.memory, key);
    if hit.Some? then (hit, CacheState(memory, st.disk))
    else match DiskRead(st.disk, key)
      case None => (None, st)
      case Some(entry) =>
        if |entry.content| <= MAX_FILE_SIZE then
          (Some(entry), CacheState(LruPut(st.memory, MAX_CACHE_SIZE, key, entry), st.disk))
        else (Some(entry), st)
  }

  /** `ProxyCache::set`: the memory tier is updated first (entries larger
      than `MAX_FILE_SIZE` are kept out of it), then the content file is
      written, then the `.meta` file; the first failed write ends the call
      with an error, keeping whatever was done before it. */
  function CacheSet(st: CacheState, key: string, entry: CacheEntry): (r: (Result<(), ProxyError>, CacheState))
    ensures r.0.Ok? <==> ContentPath(key) !in st.disk.unwritable && MetaPath(key) !in st.disk.unwritable
    ensures r.0.Err? ==> r.0.error == CacheWriteFailed(
      if ContentPath(key) in st.disk.unwritable then ContentPath(key) else MetaPath(key))
    ensures r.1.memory == if |entry.content| <= MAX_FILE_SIZE
      then LruPut(st.memory, MAX_CACHE_SIZE, key, entry) else st.memory
    ensures r.0.Ok? ==> DiskRead(r.1.disk, key) == Some(entry)
    ensures ContentPath(key) in st.disk.unwritable ==> r.1.disk == st.disk
    ensures r.1.disk.unwritable == st.disk.unwritable
    ensures forall other :: other != key ==> DiskRead(r.1.disk, other) == DiskRead(st.disk, other)
    ensures ValidCache(st) ==> ValidCache(r.1)
  {
    var memory := if |entry.content| <= MAX_FILE_SIZE then LruPut(st.memory, MAX_CACHE_SIZE, key, entry) else st.memory;
    if ContentPath(key) in st.disk.unwritable then
      (Err(CacheWriteFailed(ContentPath(key))), CacheState(memory, st.disk))
    else
      var written := st.disk.(contents := st.disk.contents[key := Some(entry.content)]);
      if MetaPath(key) in st.disk.unwritable then
        (Err(CacheWriteFailed(MetaPath(key))), CacheState(memory, written))
      else
        (Ok(()), CacheState(memory, written.(metas := written.metas[key := MetaJson(entry.meta)])))
  }

  /** Within the size limit, a stored entry is served by the next get, even
      when writing it to disk failed. */
  lemma SetThenGet(st: CacheState, key: string, entry: CacheEntry)
    requires |entry.content| <= MAX_FILE_SIZE
    ensures CacheGet(CacheSet(st, key, entry).1, key).0 == Some(entry)
  {
  }

  /** An entry over the size limit reaches only the disk: a key still held
      in memory keeps serving its older entry. */
  lemma OversizedSetServesStaleEntry(st: CacheState, key: string, entry: CacheEntry)
    requires |entry.content| > MAX_FILE_SIZE && key in st.memory.entries
    ensures CacheGet(CacheSet(st, key, entry).1, key).0 == Some(st.memory.entries[key])
  {
  }

  /** An entry over the size limit that is not in memory is served from
      disk, when both files were written, and is not copied into memory. */
  lemma OversizedSetReadsFromDisk(st: CacheState, key: string, entry: CacheEntry)
    requires |entry.content| > MAX_FILE_SIZE && key !in st.memory.entries
    requires CacheSet(st, key, entry).0.Ok?
    ensures var (found, after) := CacheGet(CacheSet(st, key, entry).1, key);
      found == Some(entry) && after.memory == st.memory
  {
  }

  /** A failed content write leaves the old disk entry in place, and a
      failed `.meta` write leaves a new content file beside the old `.meta`
      file, so the disk tier may then pair new content with old metadata. */
  lemma FailedMetaWritePairsNewContentWithOldMeta(st: CacheState, key: string, entry: CacheEntry)
    requires ContentPath(key) !in st.disk.unwritable && MetaPath(key) in st.disk.unwritable
    requires key in st.disk.metas && st.disk.metas[key].MetaJson?
    ensures DiskRead(CacheSet(st, key, entry).1.disk, key) == Some(CacheEntry(entry.content, st.disk.metas[key].meta))
  {
  }

  /** A disk hit is copied into memory exactly when it is within the size
      limit, so a second get of the same key is then a memory hit. */
  lemma DiskHitPromotion(st: CacheState, key: string)
    requires key !in st.memory.entries && DiskRead(st.disk, key).Some?
    ensures var (found, after) := CacheGet(st, key);
      key in after.memory.entries <==> |found.value.content| <= MAX_FILE_SIZE
  {
  }

  /** The memory tier never holds more than `MAX_CACHE_SIZE` entries. */
  lemma MemoryBound(st: CacheState)
    requires ValidCache(st)
    ensures |st.memory.entries| <= MAX_CACHE_SIZE
  {
    CapacityBound(st.memory, MAX_CACHE_SIZE);
  }

  /** `get` and `set` on one key leave every other key's disk entry and
      memory value alone; a key leaves memory only as the least recently
      used one, evicted to make room for a new key. */
  lemma OtherKeysUntouched(st: CacheState, key: string, entry: CacheEntry, other: string)
    requires ValidCache(st) && other != key
    ensures var after := CacheSet(st, key, entry).1;
      && DiskRead(after.disk, other) == DiskRead(st.disk, other)
      && (other in after.memory.entries ==> other in st.memory.entries && after.memory.entries[other] == st.memory.entries[other])
      && (other in st.memory.entries && other !in after.memory.entries ==>
            |entry.content| <= MAX_FILE_SIZE && Evicts(st.memory, MAX_CACHE_SIZE, key) && other == st.memory.order[0])
    ensures var after := CacheGet(st, key).1;
      && after.disk == st.disk
      && (other in after.memory.entries ==> other in st.memory.entries && after.memory.entries[other] == st.memory.entries[other])
      && (other in st.memory.entries && other !in after.memory.entries ==>
            key !in st.memory.entries && Evicts(st.memory, MAX_CACHE_SIZE, key) && other == st.memory.order[0])
  {
  }

  /** `ProxyCache`: the LRU map behind its mutex, and the cache directory. */
  class ProxyCache {
    const memory: LruCache<string, CacheEntry>
    var disk: Disk

    ghost predicate Valid()
      reads this, memory
    {
      memory.Valid() && memory.capacity == MAX_CACHE_SIZE
    }

    function State(): CacheState
      reads this, memory
    {
      CacheState(memory.State(), disk)
    }

    /** `ProxyCache::new`: an empty memory tier over an existing directory. */
    constructor(disk: Disk)
      ensures Valid() && fresh(memory)
      ensures State() == CacheState(LruState([], map[]), disk)
    {
      memory := new LruCache(MAX_CACHE_SIZE);
      this.disk := disk;
    }

    method Get(key: string) returns (entry: Option<CacheEntry>)
      requires Valid()
      modifies memory
      ensures Valid()
      ensures (entry, State()) == CacheGet(old(State()), key)
    {
      entry := memory.Get(key);
      if entry.Some? {
        return;
      }
      if key in disk.contents {
        if key in disk.metas && disk.metas[key].MetaJson? {
          var meta := disk.metas[key].meta;
          match disk.contents[key] {
            case Some(content) =>
              var found := CacheEntry(content, meta);
              if |found.content| <= MAX_FILE_SIZE {
                memory.Put(key, found);
              }
              entry := Some(found);
            case None =>
          }
        }
      }
    }

    method Set(key: string, entry: CacheEntry) returns (r: Result<(), ProxyError>)
      requires Valid()
      modifies this, memory
      ensures Valid()
      ensures (r, State()) == CacheSet(old(State()), key, entry)
    {
      if |entry.content| <= MAX_FILE_SIZE {
        memory.Put(key, entry);
      }
      var path := CACHE_DIR + "/" + key;
      if path in disk.unwritable {
        return Err(CacheWriteFailed(path));
      }
      disk := disk.(contents := disk.contents[key := Some(entry.content)]);
      if path + ".meta" in disk.unwritable {
        return Err(CacheWriteFailed(path + ".meta"));
      }
      disk := disk.(metas := disk.metas[key := MetaJson(entry.meta)]);
      r := Ok(());
    }
  }
}
