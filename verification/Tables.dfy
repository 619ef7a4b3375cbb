/**
 The registry as a value, and what each critical section of the daemon does to
 it. The imperative daemon (module Daemon) is proved against these functions
 and the thread system (module Threads) interleaves them.
 */
module Tables {
  import opened CString

  type RootId = nat

  /** An unsigned 32-bit quantity. */
  type Word = x: int | 0 <= x < 0x1_0000_0000

  // Event bits of inotify(7) that the handler looks at.
  const IN_CLOSE_NOWRITE: Word := 0x10
  const IN_MOVED_FROM: Word := 0x40
  const IN_MOVED_TO: Word := 0x80
  const IN_CREATE: Word := 0x100
  const IN_DELETE: Word := 0x200
  const IN_Q_OVERFLOW: Word := 0x4000
  const IN_IGNORED: Word := 0x8000
  const IN_ISDIR: Word := 0x4000_0000

  /** `mask & flag` for a single-bit flag. */
  predicate Has(mask: Word, flag: Word)
    requires flag != 0
  {
    (mask / flag) % 2 == 1
  }

  /** `a & b` is not zero. */
  predicate Intersects(a: nat, b: nat) {
    a != 0 && b != 0 && ((a % 2 == 1 && b % 2 == 1) || Intersects(a / 2, b / 2))
  }

  /** The k-th binary digit of `m`. */
  predicate Bit(m: nat, k: nat) {
    if k == 0 then m % 2 == 1 else Bit(m / 2, k - 1)
  }

  predicate ShareBit(a: nat, b: nat, k: nat) {
    Bit(a, k) && Bit(b, k)
  }

  lemma {:induction false} ZeroHasNoBit(k: nat)
    ensures !Bit(0, k)
  {
    if k > 0 { ZeroHasNoBit(k - 1); }
  }

  lemma {:induction false} CommonBitIntersects(a: nat, b: nat, k: nat)
    requires ShareBit(a, b, k)
    ensures Intersects(a, b)
  {
    if a == 0 || b == 0 {
      ZeroHasNoBit(k);
    } else if k > 0 {
      CommonBitIntersects(a / 2, b / 2, k - 1);
    }
  }

  lemma {:induction false} CommonBit(a: nat, b: nat) returns (k: nat)
    requires Intersects(a, b)
    ensures ShareBit(a, b, k)
  {
    if a % 2 == 1 && b % 2 == 1 {
      k := 0;
    } else {
      var j := CommonBit(a / 2, b / 2);
      k := j + 1;
    }
  }

  /** Two masks intersect exactly if they share a bit. */
  lemma IntersectsIsCommonBit(a: nat, b: nat)
    ensures Intersects(a, b) <==> exists k: nat :: ShareBit(a, b, k)
  {
    forall k: nat | ShareBit(a, b, k) ensures Intersects(a, b) {
      CommonBitIntersects(a, b, k);
    }
    if Intersects(a, b) {
      var k := CommonBit(a, b);
    }
  }

  /** An `int` stored into the `uint32_t` mask. */
  function AsWord(x: int): Word {
    x % 0x1_0000_0000
  }

  /** A kernel record: `struct inotify_event` with its name as a C string. */
  datatype Record = Record(wd: int, mask: Word, cookie: Word, len: Word, name: string)

  /** A queue node (src/inotify.h:88-95). */
  datatype Event = Event(wd: int, mask: Word, cookie: Word, len: Word, path: Path, name: string)

  /** A root's metadata (src/inotify.h:60-69). `freed` marks a queue that its
      destroyer has released. */
  datatype Root = Root(path: Path, mask: Word, maxEvents: int, queue: seq<Event>, freed: bool,
                       destroy: bool, pause: bool, rewatch: bool)

  datatype Watch = Watch(wd: int, path: Path)

  /** The three hash tables and the root counter. `objs` holds every Root ever
      made, so that a Root keeps its identity after it leaves the table. */
  datatype Tables = Tables(roots: map<Path, RootId>, objs: seq<Root>,
                           byPath: map<Path, Watch>, byWd: map<int, Watch>, numRoots: int)
  {
    /** Every table entry is a Root of that path. */
    ghost predicate Indexed() {
      forall p | p in roots :: roots[p] < |objs| && objs[roots[p]].path == p
    }
  }

  const EMPTY: Tables := Tables(map[], [], map[], map[], 0)

  /** What the handler starts a tree walk with (T_Data, src/inotify.c:65-69). */
  datatype Walk = Walk(path: Path, root: RootId, cleanup: bool)

  datatype Error =
    | JsonInvalid | JsonParse | JsonKeyNotFound | ZeromqReconnect | InvalidEventCount
    | RootNotWatched | RootAlreadyWatched | ParentOfRoot | ChildOfRoot | RootDoesNotExist
    | NotAbsolutePath | RootBeingDestroyed | BadCall

  // ---- root lookups ------------------------------------------------------

  /** The test of `inotify_path_to_root` against one key (src/inotify.c:864). */
  predicate Matches(path: Path, key: Path) {
    path == key || Occurs(path, key + "/")
  }

  function FirstMatch(order: seq<Path>, path: Path): (r: Option<Path>)
    ensures r.None? <==> forall k | k in order :: !Matches(path, k)
    ensures r.Some? ==> r.value in order && Matches(path, r.value)
  {
    if order == [] then None
    else if Matches(path, order[0]) then Some(order[0])
    else FirstMatch(order[1..], path)
  }

  /** `inotify_path_to_root` when the table is iterated in `order`. */
  function PathToRoot(roots: map<Path, RootId>, order: seq<Path>, path: Path): Option<RootId> {
    if "/" in roots then Some(roots["/"])
    else match FirstMatch(order, path)
      case None => None
      case Some(k) => if k in roots then Some(roots[k]) else None
  }

  /** `inotify_is_parent`: some root lies below `path`, as `strstr` sees it. */
  function ParentOf(order: seq<Path>, path: Path): (r: Option<Path>)
    ensures r.None? <==> forall k | k in order :: !Occurs(k, path + "/")
    ensures r.Some? ==> r.value in order && Occurs(r.value, path + "/")
  {
    if order == [] then None
    else if Occurs(order[0], path + "/") then Some(order[0])
    else ParentOf(order[1..], path)
  }

  // ---- watch and unwatch -------------------------------------------------

  /** `inotify_watch_tree` drops one trailing slash, but not from `/`. */
  function WatchKey(path: Path): Path {
    if path != "" && path != "/" && path[|path| - 1] == '/' then path[..|path| - 1] else path
  }

  /** `inotify_unwatch_tree` drops one trailing slash without exception. */
  function UnwatchKey(path: Path): Path {
    if path != "" && path[|path| - 1] == '/' then path[..|path| - 1] else path
  }

  /** The collision checks of `inotify_watch_tree` (src/inotify.c:1165-1209). */
  function Refusal(t: Tables, order: seq<Path>, path: Path): Option<Error>
    requires t.Indexed()
  {
    match PathToRoot(t.roots, order, path)
    case Some(id) =>
      if path != t.objs[id].path then Some(ChildOfRoot)
      else if t.objs[id].destroy then Some(RootBeingDestroyed)
      else Some(RootAlreadyWatched)
    case None =>
      if ParentOf(order, path).Some? then Some(ParentOfRoot) else None
  }

  /** `make_root`, its entry in the table and the counter (src/inotify.c:1230-1240). */
  function Insert(t: Tables, path: Path, mask: Word, maxEvents: int, rewatch: bool): Tables {
    t.(roots := t.roots[path := |t.objs|],
       objs := t.objs + [Root(path, mask, maxEvents, [], false, false, false, rewatch)],
       numRoots := t.numRoots + 1)
  }

  function MarkDestroyed(t: Tables, id: RootId): Tables
    requires id < |t.objs|
  {
    t.(objs := t.objs[id := t.objs[id].(destroy := true)])
  }

  function SetPause(t: Tables, id: RootId, pause: bool): Tables
    requires id < |t.objs|
  {
    t.(objs := t.objs[id := t.objs[id].(pause := pause)])
  }

  // ---- the watch indexes -------------------------------------------------

  /** Registers a directory under a new descriptor (src/inotify.c:1452-1453). */
  function AddWatch(t: Tables, wd: int, path: Path): Tables {
    t.(byWd := t.byWd[wd := Watch(wd, path)], byPath := t.byPath[path := Watch(wd, path)])
  }

  /** Drops `path` and the descriptor it is indexed under. */
  function Forget(t: Tables, path: Path): Tables
    requires path in t.byPath
  {
    t.(byWd := t.byWd - {t.byPath[path].wd}, byPath := t.byPath - {path})
  }

  /** As Forget, with the handler's guard on the path entry (src/inotify.c:460-464). */
  function ForgetAbsolute(t: Tables, path: Path): Tables
    requires path in t.byPath
  {
    t.(byWd := t.byWd - {t.byPath[path].wd},
       byPath := if IsAbsolute(path) then t.byPath - {path} else t.byPath)
  }

  /** The indexed paths strictly below `dir`. */
  function Below(t: Tables, dir: Path): set<Path> {
    set p | p in t.byPath && dir + "/" <= p
  }

  /** Drops every path strictly below `dir` (src/inotify.c:469-532). */
  function ForgetBelow(t: Tables, dir: Path): Tables {
    t.(byWd := t.byWd - Wds(t, Below(t, dir)), byPath := t.byPath - Below(t, dir))
  }

  function Wds(t: Tables, paths: set<Path>): set<int> {
    set p | p in t.byPath && p in paths :: t.byPath[p].wd
  }

  // ---- queues ------------------------------------------------------------

  predicate HasRoom(r: Root) {
    |r.queue| < r.maxEvents
  }

  /** `inotify_enqueue`: append unless the queue is full. */
  function Enqueue(t: Tables, id: RootId, e: Event): Tables
    requires id < |t.objs|
  {
    var r := t.objs[id];
    if HasRoom(r) then t.(objs := t.objs[id := r.(queue := r.queue + [e])]) else t
  }

  /** How many events `inotify_dequeue` hands out; a count of 0 asks for all. */
  function Batch(r: Root, count: nat): (n: nat)
    ensures n <= |r.queue|
  {
    if count == 0 || count > |r.queue| then |r.queue| else count
  }

  function Dequeue(t: Tables, id: RootId, count: nat): Tables
    requires id < |t.objs|
  {
    var r := t.objs[id];
    t.(objs := t.objs[id := r.(queue := r.queue[Batch(r, count)..])])
  }

  /** `_destroy_root` releases the queue first (src/inotify.c:999-1000). */
  function FreeQueue(t: Tables, id: RootId): Tables
    requires id < |t.objs|
  {
    t.(objs := t.objs[id := t.objs[id].(queue := [], freed := true)])
  }

  /** What unwatching leaves when it is through with Root `id`: its queue is
      released, its tree is forgotten, and so is the root (src/inotify.c:988-1065). */
  function Destroyed(t: Tables, id: RootId): Tables
    requires id < |t.objs|
  {
    var r := t.objs[id].path;
    var t1 := ForgetBelow(FreeQueue(t, id), r);
    var t2 := if r in t1.byPath then Forget(t1, r) else t1;
    t2.(roots := t2.roots - {r}, numRoots := t2.numRoots - 1)
  }

  // ---- one kernel record -------------------------------------------------

  /** The branches that drop a record before any table is read (src/inotify.c:223-274). */
  predicate Ignored(rec: Record) {
    || rec.len == 0
    || Has(rec.mask, IN_Q_OVERFLOW)
    || (Has(rec.mask, IN_ISDIR) && Has(rec.mask, IN_CLOSE_NOWRITE))
    || Has(rec.mask, IN_IGNORED)
    || TmpTail(rec.name)
  }

  /** A record's directory and the root it is filed under. */
  datatype Target = Target(path: Path, root: RootId)

  /** The first section of the handler: whose event is this? (src/inotify.c:281-354) */
  function Lookup(t: Tables, order: seq<Path>, rec: Record): (r: Option<Target>)
    requires t.Indexed()
    ensures r.Some? ==> r.value.root < |t.objs|
  {
    if rec.wd !in t.byWd then None else
    var path := t.byWd[rec.wd].path;
    match PathToRoot(t.roots, order, path)
    case None => None
    case Some(id) =>
      if t.objs[id].pause || t.objs[id].destroy then None else Some(Target(path, id))
  }

  /** The event path the handler builds. Under `/` the format string has one
      conversion and two arguments, so the name is lost (src/inotify.c:357-360). */
  function EventPath(path: Path, name: string): Path {
    if path == "/" then "/" + path else path + "/" + name
  }

  predicate Appears(mask: Word) {
    Has(mask, IN_ISDIR) && (Has(mask, IN_CREATE) || Has(mask, IN_MOVED_TO))
  }

  predicate Vanishes(mask: Word) {
    Has(mask, IN_ISDIR) && !Appears(mask) && (Has(mask, IN_DELETE) || Has(mask, IN_MOVED_FROM))
  }

  /** The paths a vanished directory takes out of the index. */
  function Vanished(t: Tables, mask: Word, abs: Path): set<Path> {
    if !Vanishes(mask) || abs !in t.byPath then {}
    else if Has(mask, IN_MOVED_FROM) then {abs} + Below(t, abs)
    else {abs}
  }

  /** The second section: directories that vanish leave the index. */
  function Prune(t: Tables, mask: Word, abs: Path): (t': Tables)
    ensures t'.roots == t.roots && t'.objs == t.objs
  {
    if !Vanishes(mask) || abs !in t.byPath then t
    else
      var t' := ForgetAbsolute(t, abs);
      if Has(mask, IN_MOVED_FROM) then ForgetBelow(t', abs) else t'
  }

  /** The record is dropped after its root was found: a creation inside a
      scratch directory, or the disappearance of an unindexed directory. */
  predicate Dropped(t: Tables, mask: Word, path: Path, abs: Path) {
    || (Appears(mask) && TmpTail(path))
    || (Vanishes(mask) && abs !in t.byPath)
  }

  function Node(rec: Record, path: Path): Event {
    Event(rec.wd, rec.mask, rec.cookie, rec.len, path, rec.name)
  }

  /** The third section: queue the event if the root asked for it (src/inotify.c:539-544). */
  function Offer(t: Tables, rec: Record, path: Path, id: RootId): (t': Tables)
    requires id < |t.objs|
    ensures t'.roots == t.roots && |t'.objs| == |t.objs|
    ensures forall i | 0 <= i < |t.objs| :: t'.objs[i].path == t.objs[i].path
  {
    if Intersects(rec.mask, t.objs[id].mask) then Enqueue(t, id, Node(rec, path)) else t
  }

  // ---- facts about the lookups -------------------------------------------

  /** `path` can join `roots` as far as the two `strstr` scans can tell. */
  ghost predicate Clear(roots: set<Path>, path: Path) {
    && "/" !in roots
    && forall k | k in roots :: path != k && !Occurs(path, k + "/") && !Occurs(k, path + "/")
  }

  lemma RefusalIsClear(t: Tables, order: seq<Path>, path: Path)
    requires t.Indexed() && Enumerates(order, t.roots.Keys)
    ensures Refusal(t, order, path).None? <==> Clear(t.roots.Keys, path)
  {
  }

  lemma LookupFacts(t: Tables, order: seq<Path>, path: Path)
    requires t.Indexed()
    ensures var r := PathToRoot(t.roots, order, path);
            r.Some? ==> r.value < |t.objs| && t.objs[r.value].path in t.roots
                        && t.roots[t.objs[r.value].path] == r.value
                        && (t.objs[r.value].path == "/" || Matches(path, t.objs[r.value].path))
  {
  }

  /** The handler's event path is the path of the entry the event is about,
      except directly under `/`. */
  lemma EventPathIsChild(path: Path, name: string)
    requires name != "/"
    ensures EventPath(path, name) == Child(path, name) <==> path != "/"
  {
    assert ("/" + "/")[1..] == "/" && ("/" + name)[1..] == name;
  }
}
