// The file cache (plugin.js, MapBackend2 and cachedReadFile): an insertion-ordered map used
// as an LRU cache whose entries are checked against the file's modification time.
module FileCache {
  import opened Options
  import opened SeqFacts

  // ---------- Files ----------

  // A cache key is the path of a file, compared as text.
  datatype Path = Path(name: string)

  const NO_PATH := Path("")

  datatype File = File(content: string, mtime: int)

  // `stamps` remembers the last modification time of every path that ever existed.
  datatype Disk = Disk(files: map<Path, File>, stamps: map<Path, int>)

  ghost predicate IsDisk(disk: Disk) {
    && NO_PATH !in disk.files
    && forall k :: k in disk.files ==> k in disk.stamps && disk.files[k].mtime == disk.stamps[k]
  }

  // A write strictly raises the file's modification time, also after a deletion.
  predicate CanWrite(disk: Disk, path: Path, mtime: int) {
    path != NO_PATH && (path in disk.stamps ==> disk.stamps[path] < mtime)
  }

  function WriteFile(disk: Disk, path: Path, content: string, mtime: int): Disk {
    Disk(disk.files[path := File(content, mtime)], disk.stamps[path := mtime])
  }

  function DeleteFile(disk: Disk, path: Path): Disk {
    Disk(disk.files - {path}, disk.stamps)
  }

  // safeReadFile: the content, or None where the source returns null.
  function ReadFile(disk: Disk, path: Path): Option<string> {
    if path in disk.files then Some(disk.files[path].content) else None
  }

  // ---------- The cache ----------

  datatype Entry = Entry(value: string, mtime: int)

  // A JavaScript Map: its entries, and its keys in insertion order.
  datatype Lru = Lru(order: seq<Path>, entries: map<Path, Entry>)

  const EMPTY := Lru([], map[])

  ghost predicate IsMap(l: Lru) {
    Distinct(l.order) && Elements(l.order) == l.entries.Keys
  }

  function Without(order: seq<Path>, key: Path): (rest: seq<Path>)
    ensures key !in rest
    ensures forall k :: k in rest <==> k in order && k != key
    ensures key !in order ==> rest == order
  {
    if order == [] then []
    else if order[0] == key then Without(order[1..], key)
    else [order[0]] + Without(order[1..], key)
  }

  lemma {:induction false} WithoutDistinct(order: seq<Path>, key: Path)
    requires Distinct(order)
    ensures Distinct(Without(order, key))
    ensures |Without(order, key)| == |order| - (if key in order then 1 else 0)
  {
    if order != [] {
      var rest := order[1..];
      forall i | 0 <= i < |rest|
        ensures rest[i] != order[0]
      {
        assert rest[i] == order[i + 1];
      }
      assert order == [order[0]] + rest;
      WithoutDistinct(rest, key);
      if order[0] != key {
        DistinctPrepend(order[0], Without(rest, key));
      }
    }
  }

  // Map.delete and Map.set for a key that is absent.
  function Delete(l: Lru, key: Path): Lru {
    if key in l.entries then Lru(Without(l.order, key), l.entries - {key}) else l
  }

  function Append(l: Lru, key: Path, entry: Entry): Lru {
    Lru(l.order + [key], l.entries[key := entry])
  }

  // get: a hit moves the key to the end; a stale or vanished file drops it.
  function Get(l: Lru, disk: Disk, key: Path): (Lru, Option<string>) {
    if key !in l.entries then (l, None)
    else if key !in disk.files || disk.files[key].mtime > l.entries[key].mtime then (Delete(l, key), None)
    else (Append(Delete(l, key), key, l.entries[key]), Some(l.entries[key].value))
  }

  // The room made before a new entry: the oldest key goes, unless it is the empty string.
  function Evict(l: Lru, maxSize: nat): Lru {
    if |l.order| >= maxSize && l.order != [] && l.order[0] != NO_PATH then Delete(l, l.order[0]) else l
  }

  // set: the modification time is that of the file now, or the clock if it has none.
  function Set(l: Lru, disk: Disk, maxSize: nat, key: Path, value: string, now: int): Lru {
    var mtime := if key in disk.files then disk.files[key].mtime else now;
    Append(Evict(Delete(l, key), maxSize), key, Entry(value, mtime))
  }

  function CachedRead(l: Lru, disk: Disk, maxSize: nat, path: Path, now: int): (Lru, Option<string>) {
    var (l', cached) := Get(l, disk, path);
    if cached.Some? then (l', cached)
    else
      var content := ReadFile(disk, path);
      if content.Some? then (Set(l', disk, maxSize, path, content.value, now), content) else (l', content)
  }

  function WarmOne(l: Lru, disk: Disk, maxSize: nat, path: Path, now: int): Lru {
    if path in disk.files then Set(l, disk, maxSize, path, disk.files[path].content, now) else l
  }

  function Warm(l: Lru, disk: Disk, maxSize: nat, paths: seq<Path>, now: int): Lru {
    if paths == [] then l
    else WarmOne(Warm(l, disk, maxSize, paths[..|paths| - 1], now), disk, maxSize, paths[|paths| - 1], now)
  }

  // ---------- Size and recency ----------

  lemma {:induction false} DeleteKeepsMap(l: Lru, key: Path)
    requires IsMap(l)
    ensures IsMap(Delete(l, key)) && key !in Delete(l, key).entries
    ensures |Delete(l, key).order| == |l.order| - (if key in l.entries then 1 else 0)
  {
    assert key in l.entries <==> key in Elements(l.order);
    WithoutDistinct(l.order, key);
    assert Elements(Delete(l, key).order) == Elements(l.order) - {key};
  }

  lemma {:induction false} AppendKeepsMap(l: Lru, key: Path, entry: Entry)
    requires IsMap(l) && key !in l.entries
    ensures IsMap(Append(l, key, entry)) && |Append(l, key, entry).order| == |l.order| + 1
  {
    assert key !in Elements(l.order);
    ElementsAppend(l.order, key);
  }

  // A full cache grows past its bound exactly when its oldest key is the empty string,
  // which the truthiness test before the eviction mistakes for no key at all.
  lemma {:induction false} SetBound(l: Lru, disk: Disk, maxSize: nat, key: Path, value: string, now: int)
    requires IsMap(l) && 0 < maxSize && |l.order| <= maxSize
    ensures IsMap(Set(l, disk, maxSize, key, value, now))
    ensures |Set(l, disk, maxSize, key, value, now).order| > maxSize <==>
      key !in l.entries && |l.order| == maxSize && l.order[0] == NO_PATH
  {
    var removed := Delete(l, key);
    DeleteKeepsMap(l, key);
    var evicted := Evict(removed, maxSize);
    if |removed.order| >= maxSize {
      assert removed.order[0] in Elements(removed.order);
      DeleteKeepsMap(removed, removed.order[0]);
    }
    var mtime := if key in disk.files then disk.files[key].mtime else now;
    AppendKeepsMap(evicted, key, Entry(value, mtime));
  }

  // The position of the last use of a key in the log of hits and stores.
  function LastUse(uses: seq<Path>, key: Path): (i: int)
    ensures -1 <= i < |uses|
    ensures i >= 0 ==> uses[i] == key
    ensures forall j :: i < j < |uses| ==> uses[j] != key
  {
    if uses == [] then -1
    else if uses[|uses| - 1] == key then |uses| - 1
    else LastUse(uses[..|uses| - 1], key)
  }

  // The keys stand in order of their last use, the least recently used one first.
  ghost predicate ByRecency(order: seq<Path>, uses: seq<Path>) {
    && (forall i :: 0 <= i < |order| ==> LastUse(uses, order[i]) >= 0)
    && forall i, j :: 0 <= i < j < |order| ==> LastUse(uses, order[i]) < LastUse(uses, order[j])
  }

  lemma {:induction false} WithoutKeepsRecency(order: seq<Path>, uses: seq<Path>, key: Path)
    requires ByRecency(order, uses)
    ensures ByRecency(Without(order, key), uses)
  {
    if order != [] {
      var rest := order[1..];
      RecencyOfRest(order, uses);
      hide LastUse;
      WithoutKeepsRecency(rest, uses, key);
      if order[0] != key {
        RecencyPrepend(order[0], Without(rest, key), uses);
      }
    }
  }

  lemma {:induction false} RecencyOfRest(order: seq<Path>, uses: seq<Path>)
    requires ByRecency(order, uses) && order != []
    ensures ByRecency(order[1..], uses) && LastUse(uses, order[0]) >= 0
    ensures forall k :: k in order[1..] ==> LastUse(uses, order[0]) < LastUse(uses, k)
  {
    hide LastUse;
  }

  lemma {:induction false} RecencyPrepend(first: Path, rest: seq<Path>, uses: seq<Path>)
    requires ByRecency(rest, uses) && LastUse(uses, first) >= 0
    requires forall k :: k in rest ==> LastUse(uses, first) < LastUse(uses, k)
    ensures ByRecency([first] + rest, uses)
  {
    hide LastUse;
    var longer := [first] + rest;
    forall i, j | 0 <= i < j < |longer|
      ensures LastUse(uses, longer[i]) < LastUse(uses, longer[j])
    {
      var b := rest[j - 1];
      assert longer[j] == b && b in rest;
      if i > 0 {
        assert longer[i] == rest[i - 1];
      }
    }
    forall i | 0 <= i < |longer|
      ensures LastUse(uses, longer[i]) >= 0
    {
      if i > 0 {
        assert longer[i] == rest[i - 1];
      }
    }
  }

  lemma {:induction false} UseLast(order: seq<Path>, uses: seq<Path>, key: Path)
    requires ByRecency(order, uses) && key !in order
    ensures ByRecency(order + [key], uses + [key])
  {
    var longer := uses + [key];
    assert longer[..|uses|] == uses;
    assert forall k :: k != key ==> LastUse(longer, k) == LastUse(uses, k);
  }

  // A store logs its key; what it evicts, if anything, was used before everything else.
  lemma {:induction false} SetKeepsRecency(l: Lru, uses: seq<Path>, disk: Disk, maxSize: nat, key: Path, value: string,
      now: int)
    requires IsMap(l) && ByRecency(l.order, uses)
    ensures ByRecency(Set(l, disk, maxSize, key, value, now).order, uses + [key])
    ensures forall k :: k in l.entries && k != key && k !in Set(l, disk, maxSize, key, value, now).entries ==>
      forall m :: m in l.entries && m != k && m != key ==> LastUse(uses, k) < LastUse(uses, m)
  {
    var removed := Delete(l, key);
    DeleteKeepsMap(l, key);
    WithoutKeepsRecency(l.order, uses, key);
    var evicted := Evict(removed, maxSize);
    hide LastUse, IsMap, ByRecency;
    if removed.order != [] {
      EvictedIsOldest(removed, uses);
      MapMembers(removed);
      DeleteKeepsMap(removed, removed.order[0]);
      WithoutKeepsRecency(removed.order, uses, removed.order[0]);
    }
    MapMembers(evicted);
    UseLast(evicted.order, uses, key);
  }

  lemma {:induction false} MapMembers(l: Lru)
    requires IsMap(l)
    ensures forall k :: k in l.order <==> k in l.entries
  {
    assert forall k :: k in Elements(l.order) <==> k in l.entries;
  }

  lemma {:induction false} EvictedIsOldest(l: Lru, uses: seq<Path>)
    requires IsMap(l) && ByRecency(l.order, uses) && l.order != []
    ensures forall m :: m in l.entries && m != l.order[0] ==> LastUse(uses, l.order[0]) < LastUse(uses, m)
  {
    hide LastUse;
    MapMembers(l);
    RecencyOfRest(l.order, uses);
    assert l.order == [l.order[0]] + l.order[1..];
  }

  // ---------- Coherence ----------

  // Every entry was right when its file had the entry's modification time.
  ghost predicate Coherent(l: Lru, disk: Disk) {
    forall k :: k in l.entries ==>
      && k in disk.stamps && l.entries[k].mtime <= disk.stamps[k]
      && (k in disk.files && l.entries[k].mtime == disk.stamps[k] ==> l.entries[k].value == disk.files[k].content)
  }

  // A cached read returns what a direct read would.
  lemma {:induction false} CachedReadIsDirect(l: Lru, disk: Disk, maxSize: nat, path: Path, now: int)
    requires Coherent(l, disk) && IsDisk(disk)
    ensures CachedRead(l, disk, maxSize, path, now).1 == ReadFile(disk, path)
  {
  }

  // ---------- What stays ----------

  // The cache answers exactly for a stored file that exists and has not been written since; it
  // then keeps what it holds. Otherwise nothing but the entry asked for goes.
  lemma {:induction false} HitExactlyWhen(l: Lru, disk: Disk, key: Path)
    ensures Get(l, disk, key).1.Some? <==>
      key in l.entries && key in disk.files && disk.files[key].mtime <= l.entries[key].mtime
    ensures Get(l, disk, key).1.Some? ==>
      Get(l, disk, key).1.value == l.entries[key].value && Get(l, disk, key).0.entries == l.entries
    ensures Get(l, disk, key).1.None? ==> Get(l, disk, key).0.entries == l.entries - {key}
  {
    if key in l.entries {
      assert l.entries == (l.entries - {key})[key := l.entries[key]];
    }
    hide Without;
  }

  // Reading an existing file leaves it in the cache: the next read, with the file unchanged, is
  // a hit.
  lemma {:induction false} ReadThenHit(l: Lru, disk: Disk, maxSize: nat, path: Path, now: int)
    requires Coherent(l, disk) && IsDisk(disk) && path in disk.files
    ensures Get(CachedRead(l, disk, maxSize, path, now).0, disk, path).1 == Some(disk.files[path].content)
  {
    hide Without;
    HitExactlyWhen(l, disk, path);
    HitExactlyWhen(CachedRead(l, disk, maxSize, path, now).0, disk, path);
  }

  // Storing a file costs another one its place exactly when the file is new, the cache is full
  // and the other is the least recently used; all others keep their entries.
  lemma {:induction false} LosesPlaceExactlyWhen(l: Lru, disk: Disk, maxSize: nat, key: Path, value: string, now: int,
      other: Path)
    requires IsMap(l) && 0 < maxSize && |l.order| <= maxSize && other in l.entries && other != key
    ensures other !in Set(l, disk, maxSize, key, value, now).entries <==>
      key !in l.entries && |l.order| == maxSize && l.order[0] == other && other != NO_PATH
    ensures other in Set(l, disk, maxSize, key, value, now).entries ==>
      Set(l, disk, maxSize, key, value, now).entries[other] == l.entries[other]
  {
    DeleteKeepsMap(l, key);
    MapMembers(l);
    var removed := Delete(l, key);
    MapMembers(removed);
    if key !in l.entries {
      assert removed == l;
    }
    hide Without, IsMap;
  }

  // ---------- Runs ----------

  datatype World = World(disk: Disk, cache: Lru, uses: seq<Path>)

  datatype Step =
    | Read(path: Path, now: int)
    | WarmUp(paths: seq<Path>, now: int)
    | Invalidate(path: Path)
    | Clear
    | Write(path: Path, content: string, mtime: int)
    | Remove(path: Path)

  const INITIAL := World(Disk(map[], map[]), EMPTY, [])

  predicate Enabled(w: World, step: Step) {
    step.Write? ==> CanWrite(w.disk, step.path, step.mtime)
  }

  // The warm-up stores, and logs, the files that exist.
  function Existing(disk: Disk, paths: seq<Path>): seq<Path> {
    if paths == [] then []
    else
      var last := paths[|paths| - 1];
      Existing(disk, paths[..|paths| - 1]) + (if last in disk.files then [last] else [])
  }

  function Next(w: World, maxSize: nat, step: Step): World {
    match step
    case Read(path, now) =>
      var (cache, content) := CachedRead(w.cache, w.disk, maxSize, path, now);
      w.(cache := cache, uses := if content.Some? then w.uses + [path] else w.uses)
    case WarmUp(paths, now) =>
      w.(cache := Warm(w.cache, w.disk, maxSize, paths, now), uses := w.uses + Existing(w.disk, paths))
    case Invalidate(path) => w.(cache := Delete(w.cache, path))
    case Clear => w.(cache := EMPTY)
    case Write(path, content, mtime) => w.(disk := WriteFile(w.disk, path, content, mtime))
    case Remove(path) => w.(disk := DeleteFile(w.disk, path))
  }

  ghost predicate IsRun(worlds: seq<World>, maxSize: nat, steps: seq<Step>) {
    && |worlds| == |steps| + 1 && worlds[0] == INITIAL
    && forall i :: 0 <= i < |steps| ==>
         Enabled(worlds[i], steps[i]) && worlds[i + 1] == Next(worlds[i], maxSize, steps[i])
  }

  ghost predicate IsCache(l: Lru, disk: Disk, maxSize: nat, uses: seq<Path>) {
    && IsMap(l) && NO_PATH !in l.entries && |l.order| <= maxSize
    && Coherent(l, disk) && ByRecency(l.order, uses)
  }

  ghost predicate Inv(w: World, maxSize: nat) {
    IsDisk(w.disk) && IsCache(w.cache, w.disk, maxSize, w.uses)
  }

  lemma {:induction false} DeleteKeeps(l: Lru, disk: Disk, maxSize: nat, uses: seq<Path>, key: Path)
    requires IsCache(l, disk, maxSize, uses)
    ensures IsCache(Delete(l, key), disk, maxSize, uses)
  {
    hide ByRecency;
    DeleteKeepsMap(l, key);
    WithoutKeepsRecency(l.order, uses, key);
  }

  lemma {:induction false} SetKeeps(l: Lru, disk: Disk, maxSize: nat, uses: seq<Path>, key: Path, now: int)
    requires IsCache(l, disk, maxSize, uses) && IsDisk(disk) && 0 < maxSize && key in disk.files
    ensures IsCache(Set(l, disk, maxSize, key, disk.files[key].content, now), disk, maxSize, uses + [key])
  {
    SetBound(l, disk, maxSize, key, disk.files[key].content, now);
    SetKeepsRecency(l, uses, disk, maxSize, key, disk.files[key].content, now);
    assert |l.order| == maxSize ==> l.order[0] in Elements(l.order);
    SetKeepsCoherence(l, disk, maxSize, key, now);
    hide ByRecency, IsMap, Coherent, Set, IsDisk;
  }

  // The new entry is the file as it is now; the others stay as they were or go.
  lemma {:induction false} SetKeepsCoherence(l: Lru, disk: Disk, maxSize: nat, key: Path, now: int)
    requires Coherent(l, disk) && IsDisk(disk) && key in disk.files && NO_PATH !in l.entries
    ensures Coherent(Set(l, disk, maxSize, key, disk.files[key].content, now), disk)
    ensures NO_PATH !in Set(l, disk, maxSize, key, disk.files[key].content, now).entries
  {
    var l' := Set(l, disk, maxSize, key, disk.files[key].content, now);
    hide Without;
    assert forall k :: k in l'.entries && k != key ==> k in l.entries && l'.entries[k] == l.entries[k];
  }

  // A hit keeps every entry and only moves one key.
  lemma {:induction false} HitKeeps(l: Lru, disk: Disk, maxSize: nat, uses: seq<Path>, key: Path)
    requires IsCache(l, disk, maxSize, uses) && key in l.entries
    ensures IsCache(Append(Delete(l, key), key, l.entries[key]), disk, maxSize, uses + [key])
  {
    hide ByRecency;
    var removed := Delete(l, key);
    DeleteKeeps(l, disk, maxSize, uses, key);
    DeleteKeepsMap(l, key);
    assert key !in Elements(removed.order);
    AppendKeepsMap(removed, key, l.entries[key]);
    UseLast(removed.order, uses, key);
  }

  lemma {:induction false} ReadKeeps(l: Lru, disk: Disk, maxSize: nat, uses: seq<Path>, path: Path, now: int)
    requires IsCache(l, disk, maxSize, uses) && IsDisk(disk) && 0 < maxSize
    ensures var (l', content) := CachedRead(l, disk, maxSize, path, now);
      IsCache(l', disk, maxSize, if content.Some? then uses + [path] else uses)
  {
    hide IsCache, Set, Delete, Append;
    var (l', cached) := Get(l, disk, path);
    if cached.Some? {
      HitKeeps(l, disk, maxSize, uses, path);
    } else {
      DeleteKeeps(l, disk, maxSize, uses, path);
      if path in disk.files {
        SetKeeps(l', disk, maxSize, uses, path, now);
      }
    }
  }

  lemma {:induction false} WarmKeeps(l: Lru, disk: Disk, maxSize: nat, uses: seq<Path>, paths: seq<Path>, now: int)
    requires IsCache(l, disk, maxSize, uses) && IsDisk(disk) && 0 < maxSize
    ensures IsCache(Warm(l, disk, maxSize, paths, now), disk, maxSize, uses + Existing(disk, paths))
  {
    hide IsCache, Set;
    if paths == [] {
      assert uses + [] == uses;
    } else {
      var init, last := paths[..|paths| - 1], paths[|paths| - 1];
      WarmKeeps(l, disk, maxSize, uses, init, now);
      if last in disk.files {
        SetKeeps(Warm(l, disk, maxSize, init, now), disk, maxSize, uses + Existing(disk, init), last, now);
        assert uses + Existing(disk, init) + [last] == uses + Existing(disk, paths);
      } else {
        assert uses + Existing(disk, init) == uses + Existing(disk, paths);
      }
    }
  }

  lemma {:induction false} StepKeeps(w: World, maxSize: nat, step: Step)
    requires Inv(w, maxSize) && Enabled(w, step) && 0 < maxSize
    ensures Inv(Next(w, maxSize, step), maxSize)
  {
    match step
    case Read(path, now) =>
      hide IsCache, CachedRead;
      ReadKeeps(w.cache, w.disk, maxSize, w.uses, path, now);
    case WarmUp(paths, now) =>
      hide IsCache, Warm;
      WarmKeeps(w.cache, w.disk, maxSize, w.uses, paths, now);
    case Invalidate(path) =>
      hide IsCache, Delete;
      DeleteKeeps(w.cache, w.disk, maxSize, w.uses, path);
    case Clear =>
      EmptyIsCache(w.disk, maxSize, w.uses);
      hide IsCache;
    case Write(path, content, mtime) =>
      hide ByRecency, IsMap;
    case Remove(path) =>
      hide ByRecency, IsMap;
  }

  lemma {:induction false} EmptyIsCache(disk: Disk, maxSize: nat, uses: seq<Path>)
    ensures IsCache(EMPTY, disk, maxSize, uses)
  {
  }

  // Over any run of reads, warm-ups, invalidations, clears, writes and deletions the cache
  // never exceeds its size, is ordered by last use, and every read is a direct read.
  lemma {:induction false} CacheIsTransparent(worlds: seq<World>, maxSize: nat, steps: seq<Step>, i: nat)
    requires IsRun(worlds, maxSize, steps) && i < |worlds| && 0 < maxSize
    ensures Inv(worlds[i], maxSize)
    ensures forall path, now ::
      CachedRead(worlds[i].cache, worlds[i].disk, maxSize, path, now).1 == ReadFile(worlds[i].disk, path)
    decreases i
  {
    hide Next, IsCache, CachedRead;
    if i == 0 {
      EmptyIsCache(INITIAL.disk, maxSize, []);
    } else {
      CacheIsTransparent(worlds, maxSize, steps, i - 1);
      assert worlds[i - 1 + 1] == Next(worlds[i - 1], maxSize, steps[i - 1]);
      StepKeeps(worlds[i - 1], maxSize, steps[i - 1]);
    }
    forall path, now
      ensures CachedRead(worlds[i].cache, worlds[i].disk, maxSize, path, now).1 == ReadFile(worlds[i].disk, path)
    {
      CacheIsCoherent(worlds[i].cache, worlds[i].disk, maxSize, worlds[i].uses);
      CachedReadIsDirect(worlds[i].cache, worlds[i].disk, maxSize, path, now);
    }
  }

  lemma {:induction false} CacheIsCoherent(l: Lru, disk: Disk, maxSize: nat, uses: seq<Path>)
    requires IsCache(l, disk, maxSize, uses)
    ensures Coherent(l, disk)
  {
  }
}
