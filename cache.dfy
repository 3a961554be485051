/**
 * The translation memory of src/utils/cache.py: an in-memory map from source
 * text to translation, a flag that makes loading happen once, and the cache
 * file, which the model keeps as an abstract disk value beside the object.
 */
module Cache {
  import opened Wrappers

  /** What the cache file holds: nothing at that path, a file `json.load` rejects, or a JSON object of strings. */
  datatype Disk = Absent | Unreadable | Stored(entries: map<string, string>)

  class TranslationCache {
    const path: string
    var data: map<string, string>
    var loaded: bool
    var disk: Disk

    /** `TranslationCache(path)`: empty and not yet loaded; `disk` is the file found at `path`. */
    constructor (path: string, disk: Disk)
      ensures this.path == path && this.disk == disk
      ensures data == map[] && !loaded
    {
      this.path := path;
      this.disk := disk;
      data := map[];
      loaded := false;
    }

    /**
     * `load()`: once loaded, nothing happens. Otherwise an existing readable
     * file replaces the map wholesale, an unreadable one empties it, a missing
     * file (or an empty path) leaves it as it is; then the flag is set.
     */
    method Load()
      modifies this`data, this`loaded
      ensures loaded
      ensures old(loaded) ==> data == old(data)
      ensures !old(loaded) ==> data == FromDisk(path, disk, old(data))
    {
      if loaded {
        return;
      }
      if path != "" && disk != Absent {
        match disk {
          case Unreadable => data := map[];
          case Stored(entries) => data := entries;
        }
      }
      loaded := true;
    }

    /** `save()`: with an empty path nothing is written; otherwise the file holds exactly the map. */
    method Save()
      modifies this`disk
      ensures path == "" ==> disk == old(disk)
      ensures path != "" ==> disk == Stored(data)
    {
      if path == "" {
        return;
      }
      disk := Stored(data);
    }

    /** `get(src)` */
    function Get(src: string): (r: Option<string>)
      reads this
      ensures r.Some? <==> src in data
      ensures r.Some? ==> r.value == data[src]
    {
      if src in data then Some(data[src]) else None
    }

    /** `put(src, dst)`: afterwards `get(src)` answers `dst` and every other key keeps its value. */
    method Put(src: string, dst: string)
      modifies this`data
      ensures data == old(data)[src := dst]
      ensures Get(src) == Some(dst)
      ensures forall k :: k != src ==> Get(k) == old(Get(k))
    {
      data := data[src := dst];
    }

    /** `__len__()`: the number of cached source strings. */
    function Size(): (n: nat)
      reads this
      ensures n == |data.Keys|
    {
      |data|
    }
  }

  /** The map `load()` ends with when it runs for the first time over `current`. */
  function FromDisk(path: string, disk: Disk, current: map<string, string>): (m: map<string, string>)
    ensures path == "" || disk == Absent ==> m == current
    ensures path != "" && disk == Unreadable ==> m == map[]
    ensures path != "" && disk.Stored? ==> m == disk.entries
  {
    if path == "" then current
    else match disk
      case Absent => current
      case Unreadable => map[]
      case Stored(entries) => entries
  }

  /** Putting a new key grows the cache by one; overwriting a key leaves the size alone. */
  lemma PutSize(m: map<string, string>, k: string, v: string)
    ensures |m[k := v].Keys| == if k in m then |m.Keys| else |m.Keys| + 1
  {
    if k in m {
      assert m[k := v].Keys == m.Keys;
    } else {
      assert m[k := v].Keys == m.Keys + {k};
    }
  }
}
