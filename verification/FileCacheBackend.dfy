// MapBackend2 and cachedReadFile (plugin.js) in their own form: one mutable map, reordered
// in place. Every method computes the function of module FileCache that specifies it.
module FileCacheBackend {
  import opened Options
  import opened FileCache

  class MapBackend {
    // The JavaScript Map: its keys in insertion order and its entries.
    var order: seq<Path>
    var entries: map<Path, Entry>
    const maxSize: nat

    ghost function View(): Lru
      reads this
    {
      Lru(order, entries)
    }

    // options.maxSize || 1000
    constructor (size: nat)
      ensures View() == EMPTY && maxSize == (if size == 0 then 1000 else size)
    {
      order, entries := [], map[];
      maxSize := if size == 0 then 1000 else size;
    }

    method DeleteKey(key: Path)
      modifies this
      ensures View() == FileCache.Delete(old(View()), key)
    {
      if key in entries {
        order := Without(order, key);
        entries := entries - {key};
      }
    }

    method AppendKey(key: Path, entry: Entry)
      modifies this
      ensures View() == FileCache.Append(old(View()), key, entry)
    {
      order := order + [key];
      entries := entries[key := entry];
    }

    method Get(disk: Disk, key: Path) returns (value: Option<string>)
      modifies this
      ensures (View(), value) == FileCache.Get(old(View()), disk, key)
    {
      if key !in entries {
        return None;
      }
      var entry := entries[key];
      if key !in disk.files || disk.files[key].mtime > entry.mtime {
        DeleteKey(key);
        return None;
      }
      DeleteKey(key);
      AppendKey(key, entry);
      return Some(entry.value);
    }

    method Set(disk: Disk, key: Path, value: string, now: int)
      modifies this
      ensures View() == FileCache.Set(old(View()), disk, maxSize, key, value, now)
    {
      hide FileCache.Delete;
      var mtime := now;
      if key in disk.files {
        mtime := disk.files[key].mtime;
      }
      DeleteKey(key);
      if |order| >= maxSize && order != [] {
        var oldestKey := order[0];
        if oldestKey != NO_PATH {
          DeleteKey(oldestKey);
        }
      }
      AppendKey(key, Entry(value, mtime));
    }

    method Invalidate(key: Path)
      modifies this
      ensures View() == FileCache.Delete(old(View()), key)
    {
      DeleteKey(key);
    }

    method Clear()
      modifies this
      ensures View() == EMPTY
    {
      order, entries := [], map[];
    }

    method WarmUp(disk: Disk, paths: seq<Path>, now: int) returns (warmed: nat)
      modifies this
      ensures View() == FileCache.Warm(old(View()), disk, maxSize, paths, now)
      ensures warmed == |Existing(disk, paths)|
    {
      hide FileCache.Set;
      warmed := 0;
      for i := 0 to |paths|
        invariant View() == FileCache.Warm(old(View()), disk, maxSize, paths[..i], now)
        invariant warmed == |Existing(disk, paths[..i])|
      {
        assert paths[..i + 1][..i] == paths[..i];
        if paths[i] in disk.files {
          Set(disk, paths[i], disk.files[paths[i]].content, now);
          warmed := warmed + 1;
        }
      }
      assert paths[..|paths|] == paths;
    }
  }

  method CachedReadFile(cache: MapBackend, disk: Disk, path: Path, now: int) returns (content: Option<string>)
    modifies cache
    ensures (cache.View(), content) == CachedRead(old(cache.View()), disk, cache.maxSize, path, now)
    ensures Coherent(old(cache.View()), disk) && IsDisk(disk) ==> content == ReadFile(disk, path)
  {
    hide FileCache.Get, FileCache.Set;
    if Coherent(cache.View(), disk) && IsDisk(disk) {
      CachedReadIsDirect(cache.View(), disk, cache.maxSize, path, now);
    }
    var cached := cache.Get(disk, path);
    if cached.Some? {
      return cached;
    }
    content := ReadFile(disk, path);
    if content.Some? {
      cache.Set(disk, path, content.value, now);
    }
  }
}
