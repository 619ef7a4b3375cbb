/**
 The registry as the daemon keeps it: tables and counters updated in place, loops
 over key snapshots, and the cursor loop over the kernel's event buffer. Each
 method is proved against the value functions of module Tables. No other thread
 runs meanwhile; module Threads has the interleavings.
 */
module Daemon {
  import opened CString
  import opened Tables
  import opened Wire
  import opened Safety

  /** What handling records changes: the tables, the walkers started so far and
      the descriptors given back to the kernel. */
  datatype World = World(t: Tables, walks: seq<Walk>, retired: set<int>)

  /** A record whose root was found: act on it, then offer it to the queue. */
  function FileRecord(w: World, rec: Record, path: Path, id: RootId): (w': World)
    requires w.t.Indexed() && id < |w.t.objs|
    ensures w'.t.Indexed() && w'.t.roots == w.t.roots && |w'.t.objs| == |w.t.objs|
  {
    var abs := EventPath(path, rec.name);
    if Dropped(w.t, rec.mask, path, abs) then w
    else
      World(Offer(Prune(w.t, rec.mask, abs), rec, path, id),
            w.walks + if Appears(rec.mask) then [Walk(abs, id, false)] else [],
            w.retired + Wds(w.t, Vanished(w.t, rec.mask, abs)))
  }

  /** One record against the tables, the three sections of the handler in turn. */
  function HandleOne(order: seq<Path>, w: World, rec: Record): (w': World)
    requires w.t.Indexed()
    ensures w'.t.Indexed() && w'.t.roots == w.t.roots && |w'.t.objs| == |w.t.objs|
  {
    if Ignored(rec) then w else
    match Lookup(w.t, order, rec)
    case None => w
    case Some(Target(path, id)) => FileRecord(w, rec, path, id)
  }

  /** A buffer of records, handled one after the other. */
  function HandleAll(order: seq<Path>, w: World, recs: seq<Record>): (w': World)
    requires w.t.Indexed()
    ensures w'.t.Indexed() && w'.t.roots == w.t.roots && |w'.t.objs| == |w.t.objs|
    decreases |recs|
  {
    if recs == [] then w else HandleAll(order, HandleOne(order, w, recs[0]), recs[1..])
  }

  /** The keys of a hash table, in whatever order it yields them. */
  method KeysOf(m: map<Path, Watch>) returns (keys: seq<Path>)
    ensures Enumerates(keys, m.Keys)
  {
    keys := [];
    var rest := m.Keys;
    while rest != {}
      invariant rest <= m.Keys
      invariant forall k :: k in keys <==> k in m.Keys - rest
      invariant forall i, j | 0 <= i < j < |keys| :: keys[i] != keys[j]
      decreases rest
    {
      var k :| k in rest;
      ghost var before := keys;
      assert k !in keys;
      keys, rest := keys + [k], rest - {k};
      assert forall i | 0 <= i < |before| :: keys[i] == before[i] && keys[i] in before;
    }
  }

  /** The scratch-directory test (src/inotify.c:264-274, 384-389, 1366-1371). */
  method IsScratch(s: string) returns (b: bool)
    ensures b <==> TmpTail(s)
  {
    TmpTailByStrStr(s);
    var idx := StrStr(s, TMP);
    b := idx.Some? && idx.value + |TMP| == |s|;
  }

  /** `(ptr = strstr(s, n)) && ptr == s`. */
  method StartsWith(s: string, n: string) returns (b: bool)
    ensures b <==> n <= s
  {
    StrStrAtZero(s, n);
    b := StrStr(s, n) == Some(0);
  }

  class Registry {
    var roots: map<Path, RootId>
    var objs: seq<Root>
    var byPath: map<Path, Watch>
    var byWd: map<int, Watch>
    var numRoots: int
    var walks: seq<Walk>
    var retired: set<int>
    var doomed: seq<RootId>  // the Roots a destroyer was started for

    ghost function T(): Tables
      reads this
    {
      EMPTY.(roots := roots, objs := objs, byPath := byPath, byWd := byWd, numRoots := numRoots)
    }

    ghost function W(): World
      reads this
    {
      World(T(), walks, retired)
    }

    constructor ()
      ensures T() == EMPTY && walks == [] && retired == {} && doomed == []
    {
      roots, objs, byPath, byWd, numRoots := map[], [], map[], map[], 0;
      walks, retired, doomed := [], {}, [];
    }

    // ---- root lookups ----------------------------------------------------

    /** `inotify_path_to_root` (src/inotify.c:840-887). */
    method FindRoot(path: Path, order: seq<Path>) returns (r: Option<RootId>)
      requires T().Indexed() && Enumerates(order, roots.Keys)
      ensures r == PathToRoot(roots, order, path)
    {
      if "/" in roots { return Some(roots["/"]); }
      var i := 0;
      while i < |order|
        invariant 0 <= i <= |order|
        invariant FirstMatch(order, path) == FirstMatch(order[i..], path)
      {
        var key := order[i];
        if path == key || StrStr(path, key + "/").Some? {
          assert key in roots.Keys;
          return Some(roots[key]);
        }
        i := i + 1;
      }
      return None;
    }

    /** `inotify_is_parent` (src/inotify.c:909-943). */
    method IsParent(path: Path, order: seq<Path>) returns (sub: Option<Path>)
      requires Enumerates(order, roots.Keys)
      ensures sub == ParentOf(order, path)
      ensures sub.None? <==> forall k | k in roots :: !Occurs(k, path + "/")
    {
      assert forall k :: k in order <==> k in roots.Keys;
      var i := 0;
      while i < |order|
        invariant 0 <= i <= |order|
        invariant ParentOf(order, path) == ParentOf(order[i..], path)
      {
        if StrStr(order[i], path + "/").Some? { return Some(order[i]); }
        i := i + 1;
      }
      return None;
    }

    // ---- queues ----------------------------------------------------------

    /** `inotify_enqueue` (src/inotify.c:558-626). */
    method EnqueueEvent(id: RootId, rec: Record, path: Path) returns (full: bool)
      requires id < |objs|
      modifies this`objs
      ensures T() == Enqueue(old(T()), id, Node(rec, path))
      ensures full <==> old(|objs[id].queue| >= objs[id].maxEvents)
      ensures full ==> objs == old(objs)
      ensures !full ==>
                exists e: Event :: objs == old(objs)[id := old(objs)[id].(queue := old(objs)[id].queue + [e])]
                  && e.wd == rec.wd && e.mask == rec.mask && e.cookie == rec.cookie && e.len == rec.len
                  && e.name == rec.name && e.path == path
    {
      var root := objs[id];
      if |root.queue| >= root.maxEvents { return true; }
      var node := Event(rec.wd, rec.mask, rec.cookie, rec.len, path, rec.name);
      objs := objs[id := root.(queue := root.queue + [node])];
      return false;
    }

    /** `inotify_dequeue` (src/inotify.c:747-792): pops one event at a time. */
    method DequeueEvents(id: RootId, count: nat) returns (events: seq<Event>)
      requires id < |objs|
      modifies this`objs
      ensures T() == Dequeue(old(T()), id, count)
      ensures events + objs[id].queue == old(objs[id].queue)
      ensures |events| == if count == 0 || count > old(|objs[id].queue|) then old(|objs[id].queue|) else count
    {
      events := [];
      var n := if count == 0 || count > |objs[id].queue| then |objs[id].queue| else count;
      ghost var q := objs[id].queue;
      var i := 0;
      while i < n
        invariant 0 <= i <= n <= |q|
        invariant objs == old(objs)[id := old(objs)[id].(queue := q[i..])]
        invariant events == q[..i]
      {
        var e := objs[id].queue[0];
        objs := objs[id := objs[id].(queue := objs[id].queue[1..])];
        events := events + [e];
        i := i + 1;
      }
    }

    // ---- vanished directories --------------------------------------------

    /** The sub-directory loop after a move, and of a destroyer (src/inotify.c:480-531,
        1003-1041): it walks a snapshot of the keys of the very table it removes from. */
    method ForgetTree(dir: Path)
      modifies this`byPath, this`byWd, this`retired
      ensures T() == ForgetBelow(old(T()), dir)
      ensures retired == old(retired) + Wds(old(T()), Below(old(T()), dir))
    {
      var tmp := dir + "/";
      var keys := KeysOf(byPath);
      ghost var t := T();
      ghost var gone: set<Path> := {};
      var i := 0;
      while i < |keys|
        invariant 0 <= i <= |keys|
        invariant gone <= Below(t, dir)
        invariant forall j | 0 <= j < i && tmp <= keys[j] :: keys[j] in gone
        invariant forall j | i <= j < |keys| :: keys[j] !in gone
        invariant byPath == t.byPath - gone
        invariant byWd == t.byWd - Wds(t, gone)
        invariant retired == old(retired) + Wds(t, gone)
      {
        var sub := keys[i];
        var below := StartsWith(sub, tmp);
        if below && sub in byPath {
          var wd := byPath[sub].wd;
          OneMoreGone(t, gone, sub);
          byWd := byWd - {wd};
          byPath := byPath - {sub};
          retired := retired + {wd};
          gone := gone + {sub};
        }
        i := i + 1;
      }
      assert gone == Below(t, dir);
    }

    /** A directory was deleted or moved away (src/inotify.c:430-534). */
    method ForgetVanished(abs: Path, mask: Word)
      requires Vanishes(mask) && abs in byPath
      modifies this`byPath, this`byWd, this`retired
      ensures T() == Prune(old(T()), mask, abs)
      ensures retired == old(retired) + Wds(old(T()), Vanished(old(T()), mask, abs))
    {
      VanishedWds(T(), mask, abs);
      var wd := byPath[abs].wd;
      retired := retired + {wd};
      if wd in byWd { byWd := byWd - {wd}; } else { assert byWd - {wd} == byWd; }
      if abs in byPath && IsAbsolute(abs) { byPath := byPath - {abs}; }
      if Has(mask, IN_MOVED_FROM) { ForgetTree(abs); }
    }

    // ---- records ---------------------------------------------------------

    /** The handler's loop body for a decoded record (src/inotify.c:222-546). */
    method HandleRecord(rec: Record, order: seq<Path>)
      requires T().Indexed() && Enumerates(order, roots.Keys)
      modifies this
      ensures W() == HandleOne(order, old(W()), rec)
    {
      if rec.len == 0 { return; }
      if Has(rec.mask, IN_Q_OVERFLOW) { return; }
      if Has(rec.mask, IN_ISDIR) && Has(rec.mask, IN_CLOSE_NOWRITE) { return; }
      if Has(rec.mask, IN_IGNORED) { return; }
      var scratch := IsScratch(rec.name);
      if scratch { return; }

      if rec.wd !in byWd { return; }
      var path := byWd[rec.wd].path;
      var root := FindRoot(path, order);
      if root.None? { return; }
      var id := root.value;
      if objs[id].pause { return; }
      if objs[id].destroy { return; }

      FileEvent(rec, path, id);
    }

    /** Follow a new directory or forget a vanished one, then queue (src/inotify.c:356-544). */
    method FileEvent(rec: Record, path: Path, id: RootId)
      requires T().Indexed() && id < |objs|
      modifies this
      ensures W() == FileRecord(old(W()), rec, path, id)
    {
      var abs := EventPath(path, rec.name);
      if Has(rec.mask, IN_ISDIR) {
        if Has(rec.mask, IN_CREATE) || Has(rec.mask, IN_MOVED_TO) {
          var scratch := IsScratch(path);
          if scratch { return; }
          walks := walks + [Walk(abs, id, false)];
        } else if Has(rec.mask, IN_DELETE) || Has(rec.mask, IN_MOVED_FROM) {
          if abs !in byPath { return; }
          ForgetVanished(abs, rec.mask);
        }
      }
      if Intersects(rec.mask, objs[id].mask) {
        var full := EnqueueEvent(id, rec, path);
      }
    }

    /** The cursor loop over a buffer the kernel filled with the encodings of
        `recs` (src/inotify.c:208-550); a negative length is a read error. */
    method HandleBuffer(buf: array<Byte>, n: int, order: seq<Path>, ghost recs: seq<Record>)
      requires T().Indexed() && Enumerates(order, roots.Keys)
      requires n <= buf.Length && forall r | r in recs :: WellFormed(r)
      requires n >= 0 ==> buf[..n] == EncodeAll(recs)
      modifies this
      ensures W() == if n < 0 then old(W()) else HandleAll(order, old(W()), recs)
    {
      if n < 0 { return; }
      ghost var w := W();
      ghost var rest := recs;
      var i := 0;
      while i < n
        invariant 0 <= i <= n && (forall r | r in rest :: WellFormed(r))
        invariant buf[i..n] == EncodeAll(rest)
        invariant T().Indexed() && roots == w.t.roots
        invariant HandleAll(order, W(), rest) == HandleAll(order, w, recs)
        decreases n - i
      {
        i := NextRecord(buf, i, n, order, rest);
        rest := rest[1..];
      }
    }

    /** One turn of the cursor loop: every branch moves the cursor past the whole
        record, the first one because a record without a name has no padding. */
    method NextRecord(buf: array<Byte>, i: nat, n: nat, order: seq<Path>, ghost rest: seq<Record>) returns (next: nat)
      requires T().Indexed() && Enumerates(order, roots.Keys)
      requires i < n <= buf.Length && (forall r | r in rest :: WellFormed(r)) && buf[i..n] == EncodeAll(rest)
      modifies this
      ensures rest != [] && next == i + Size(rest[0]) && next <= n
      ensures (forall r | r in rest[1..] :: WellFormed(r)) && buf[next..n] == EncodeAll(rest[1..])
      ensures W() == HandleOne(order, old(W()), rest[0])
    {
      SplitAt(buf[..], i, n, rest);
      var rec := ReadRecord(buf, i, rest[0]);
      HandleRecord(rec, order);
      next := i + if rec.len == 0 then EVENT_SIZE else EVENT_SIZE + rec.len;
    }

    // ---- memory cleaning -------------------------------------------------

    /** `_inotify_memclean` on a filesystem that stays as it is (src/inotify.c:1687-1756). */
    method Memclean(isDir: Path -> bool) returns (count: nat, total: nat)
      requires Agreement(byPath, byWd)
      modifies this`byPath, this`byWd, this`retired
      ensures byPath == map p | p in old(byPath) && isDir(p) :: old(byPath)[p]
      ensures byWd == old(byWd) - Wds(old(T()), old(byPath).Keys - byPath.Keys)
      ensures forall d :: d in retired <==>
                d in old(retired) || exists p :: p in old(byPath) && !isDir(p) && old(byPath)[p].wd == d
      ensures count == |old(byPath)| - |byPath| && total == |old(byPath)|
      ensures Agreement(byPath, byWd)
    {
      var keys := KeysOf(byPath);
      EnumeratesSize(keys, byPath.Keys);
      ghost var gone;
      total := |keys|;
      count, gone := CleanKeys(keys, isDir);
      CleanedAll(old(T()), keys, gone, isDir, byPath, byWd, old(retired), retired);
    }

    /** The loop over the snapshot (src/inotify.c:1691-1756). */
    method CleanKeys(keys: seq<Path>, isDir: Path -> bool) returns (count: nat, ghost gone: set<Path>)
      requires Agreement(byPath, byWd) && Enumerates(keys, byPath.Keys)
      modifies this`byPath, this`byWd, this`retired
      ensures count == |gone| && Cleaned(old(byPath), keys, |keys|, gone, isDir)
      ensures Without(old(T()), gone, byPath, byWd, old(retired), retired) && Agreement(byPath, byWd)
    {
      ghost var t := T();
      count, gone := 0, {};
      var i := 0;
      while i < |keys|
        invariant 0 <= i <= |keys| && count == |gone|
        invariant Cleaned(t.byPath, keys, i, gone, isDir)
        invariant Without(t, gone, byPath, byWd, old(retired), retired) && Agreement(byPath, byWd)
      {
        StillThere(t, keys, i, gone, isDir);
        CleanedNext(t, keys, i, gone, isDir);
        var rogue := CleanIfGone(keys[i], isDir);
        if rogue {
          count := count + 1;
          gone := gone + {keys[i]};
        }
        i := i + 1;
      }
    }

    /** One key of the snapshot (src/inotify.c:1693-1755). */
    method CleanIfGone(path: Path, isDir: Path -> bool) returns (rogue: bool)
      requires Agreement(byPath, byWd)
      modifies this`byPath, this`byWd, this`retired
      ensures rogue <==> IsAbsolute(path) && !isDir(path) && path in old(byPath)
      ensures !rogue ==> byPath == old(byPath) && byWd == old(byWd) && retired == old(retired)
      ensures rogue ==>
                && byPath == old(byPath) - {path} && byWd == old(byWd) - {old(byPath)[path].wd}
                && retired == old(retired) + {old(byPath)[path].wd}
      ensures Agreement(byPath, byWd)
    {
      rogue := false;
      if path == "" || path[0] != '/' { return; }
      if !isDir(path) {
        if path !in byPath { return; }
        CleanKey(path);
        rogue := true;
      }
    }

    /** One rogue watch (src/inotify.c:1714-1754). */
    method CleanKey(path: Path)
      requires Agreement(byPath, byWd) && path in byPath
      modifies this`byPath, this`byWd, this`retired
      ensures byPath == old(byPath) - {path} && byWd == old(byWd) - {old(byPath)[path].wd}
      ensures retired == old(retired) + {old(byPath)[path].wd}
      ensures Agreement(byPath, byWd)
    {
      ForgetOne(T(), path);
      var wd := byPath[path].wd;
      retired := retired + {wd};
      if wd in byWd { byWd := byWd - {wd}; }
      if path in byPath { byPath := byPath - {path}; }
    }

    // ---- roots -----------------------------------------------------------

    /** The checks and the insertion of `inotify_watch_tree`, with no other
        thread between them; `opens` says whether the directory opens. */
    method WatchTree(path: Path, mask: Word, maxEvents: int, rewatch: bool, opens: bool, order: seq<Path>)
      returns (error: Option<Error>)
      requires T().Indexed() && Enumerates(order, roots.Keys) && path != ""
      modifies this`roots, this`objs, this`numRoots, this`walks
      ensures error == WatchOutcome(old(T()), order, path, opens)
      ensures error.Some? ==> W() == old(W())
      ensures error.None? ==>
                && T() == Insert(old(T()), WatchKey(path), mask, maxEvents, rewatch)
                && walks == old(walks) + [Walk(WatchKey(path), |old(objs)|, false)]
      ensures T().Indexed()
    {
      var key := path;
      var last := |path| - 1;
      if path[last] == '/' && path != "/" { key := path[..last]; }
      error := Collision(key, order);
      if error.Some? { return; }
      if !opens { return Some(RootDoesNotExist); }
      InsertRoot(key, mask, maxEvents, rewatch);
    }

    /** The new root's metadata, its table entry, the counter and its first
        walker (src/inotify.c:1230-1249). */
    method InsertRoot(key: Path, mask: Word, maxEvents: int, rewatch: bool)
      modifies this`roots, this`objs, this`numRoots, this`walks
      ensures T() == Insert(old(T()), key, mask, maxEvents, rewatch)
      ensures walks == old(walks) + [Walk(key, |old(objs)|, false)]
      ensures old(T()).Indexed() ==> T().Indexed()
    {
      var root := Root(key, mask, maxEvents, [], false, false, false, rewatch);
      roots := roots[key := |objs|];
      objs := objs + [root];
      numRoots := numRoots + 1;
      walks := walks + [Walk(key, |objs| - 1, false)];
    }

    /** The checks of a watch request against the watched roots (src/inotify.c:1165-1209). */
    method Collision(key: Path, order: seq<Path>) returns (error: Option<Error>)
      requires T().Indexed() && Enumerates(order, roots.Keys)
      ensures error == Refusal(T(), order, key)
      ensures error.None? <==> Clear(roots.Keys, key)
    {
      RefusalIsClear(T(), order, key);
      var r := FindRoot(key, order);
      if r.Some? {
        if key != objs[r.value].path { return Some(ChildOfRoot); }
        return Some(if objs[r.value].destroy then RootBeingDestroyed else RootAlreadyWatched);
      }
      var sub := IsParent(key, order);
      return if sub.Some? then Some(ParentOfRoot) else None;
    }

    /** `inotify_unwatch_tree` and `destroy_root` (src/inotify.c:1115-1140, 948-976): one
        trailing slash is dropped, from `/` too. */
    method UnwatchTree(path: Path) returns (error: Option<Error>)
      requires T().Indexed() && path != ""
      modifies this`objs, this`doomed
      ensures var key := UnwatchKey(path);
              error == if key !in roots then Some(RootNotWatched)
                       else if old(objs)[roots[key]].destroy then Some(RootBeingDestroyed) else None
      ensures error.Some? ==> T() == old(T()) && doomed == old(doomed)
      ensures error.None? ==> T() == MarkDestroyed(old(T()), roots[UnwatchKey(path)])
                              && doomed == old(doomed) + [roots[UnwatchKey(path)]]
      ensures T().Indexed()
    {
      var key := path;
      var last := |path| - 1;
      if path[last] == '/' { key := path[..last]; }
      if key !in roots { return Some(RootNotWatched); }
      var id := roots[key];
      if objs[id].destroy { return Some(RootBeingDestroyed); }
      objs := objs[id := objs[id].(destroy := true)];
      doomed := doomed + [id];
      return None;
    }

    /** `_destroy_root` (src/inotify.c:978-1069). The root's own watch leaves the
        tables but is not given back to the kernel. */
    method DestroyRoot(id: RootId)
      requires id < |objs|
      modifies this`roots, this`objs, this`byPath, this`byWd, this`numRoots, this`retired
      ensures T() == Destroyed(old(T()), id)
      ensures retired == old(retired) + Wds(old(T()), Below(old(T()), old(objs)[id].path))
      ensures forall d :: d in retired <==>
                d in old(retired)
                || exists p :: p in old(byPath) && old(objs)[id].path + "/" <= p && old(byPath)[p].wd == d
    {
      BelowWds(T(), objs[id].path);
      var path := objs[id].path;
      objs := objs[id := objs[id].(queue := [], freed := true)];
      ghost var t := T();
      assert Below(t, path) == Below(old(T()), path) && Wds(t, Below(t, path)) == Wds(old(T()), Below(t, path));
      ForgetTree(path);
      if path in byPath {
        byWd := byWd - {byPath[path].wd};
        byPath := byPath - {path};
      }
      roots := roots - {path};
      numRoots := numRoots - 1;
    }

    /** `inotify_pause_tree` and `inotify_unpause_tree` (src/inotify.c:1071-1113). */
    method SetPaused(path: Path, pause: bool) returns (error: Option<Error>)
      requires T().Indexed()
      modifies this`objs
      ensures error == if path in roots then None else Some(RootNotWatched)
      ensures T() == if path in roots then SetPause(old(T()), roots[path], pause) else old(T())
      ensures objs == if path in roots then old(objs)[roots[path] := old(objs)[roots[path]].(pause := pause)]
                      else old(objs)
      ensures T().Indexed()
    {
      if path !in roots { return Some(RootNotWatched); }
      var id := roots[path];
      objs := objs[id := objs[id].(pause := pause)];
      return None;
    }

    /** `inotify_get_events` (src/inotify.c:797-810). */
    method GetEvents(path: Path, count: nat) returns (events: seq<Event>)
      requires T().Indexed()
      modifies this`objs
      ensures path !in roots ==> events == [] && T() == old(T())
      ensures path in roots ==>
                && T() == Dequeue(old(T()), roots[path], count)
                && events == old(objs[roots[path]].queue[..Batch(objs[roots[path]], count)])
      ensures T().Indexed()
    {
      events := [];
      if path in roots {
        ghost var r := objs[roots[path]];
        events := DequeueEvents(roots[path], count);
        assert events == (events + objs[roots[path]].queue)[..|events|];
        assert events == r.queue[..Batch(r, count)];
      }
    }

    /** `inotify_get_roots`: the root paths and a terminator (src/inotify.c:629-676). */
    method GetRoots(order: seq<Path>) returns (list: array<string>)
      requires Enumerates(order, roots.Keys)
      ensures fresh(list) && list[..] == order + ["EOL"]
    {
      list := new string[|order| + 1](_ => "");
      var i := 0;
      while i < |order|
        invariant 0 <= i <= |order| && list[..i] == order[..i]
      {
        list[i] := order[i];
        i := i + 1;
      }
      list[i] := "EOL";
    }
  }

  /** The outcome of a watch request (src/inotify.c:1158-1221). */
  function WatchOutcome(t: Tables, order: seq<Path>, path: Path, opens: bool): Option<Error>
    requires t.Indexed()
  {
    var refusal := Refusal(t, order, WatchKey(path));
    if refusal.None? && !opens then Some(RootDoesNotExist) else refusal
  }

  /** Reading the list as the get_roots reply does, up to the first `EOL`
      (src/zeromq.c:591-597). */
  method ReadRoots(list: array<string>, ghost order: seq<Path>) returns (paths: seq<string>)
    requires list[..] == order + ["EOL"]
    ensures forall k | 0 <= k < |paths| :: k < |order| && paths[k] == order[k] && order[k] != "EOL"
    ensures paths == order <==> "EOL" !in order
  {
    paths := [];
    assert list[|order|] == (order + ["EOL"])[|order|];
    while list[|paths|] != "EOL"
      invariant |paths| <= |order| && paths == order[..|paths|] && "EOL" !in paths
      decreases |order| - |paths|
    {
      assert list[|paths|] == (order + ["EOL"])[|paths|];
      paths := paths + [list[|paths|]];
    }
    assert list[|paths|] == (order + ["EOL"])[|paths|];
  }

  /** The first record of a non-empty buffer, and the rest. */
  lemma SplitBuffer(b: seq<Byte>, recs: seq<Record>)
    requires recs != [] && forall r | r in recs :: WellFormed(r)
    requires b == EncodeAll(recs)
    ensures Size(recs[0]) <= |b| && b[..Size(recs[0])] == Encode(recs[0])
    ensures (forall r | r in recs[1..] :: WellFormed(r)) && b[Size(recs[0])..] == EncodeAll(recs[1..])
  {
  }

  /** The same at a cursor. */
  lemma SplitAt(b: seq<Byte>, i: nat, n: nat, recs: seq<Record>)
    requires i < n <= |b| && (forall r | r in recs :: WellFormed(r)) && b[i..n] == EncodeAll(recs)
    ensures recs != [] && i + Size(recs[0]) <= n && b[i..i + Size(recs[0])] == Encode(recs[0])
    ensures (forall r | r in recs[1..] :: WellFormed(r)) && b[i + Size(recs[0])..n] == EncodeAll(recs[1..])
  {
    SplitBuffer(b[i..n], recs);
    SliceOfSlice(b, i, n, 0, Size(recs[0]));
    SliceOfSlice(b, i, n, Size(recs[0]), n - i);
  }

  /** Of the first `n` snapshot keys exactly those that are no directories are gone. */
  ghost predicate Cleaned(m: map<Path, Watch>, keys: seq<Path>, n: nat, gone: set<Path>, isDir: Path -> bool) {
    && n <= |keys| && Enumerates(keys, m.Keys) && gone <= m.Keys
    && (forall p | p in gone :: !isDir(p))
    && (forall j | 0 <= j < |keys| :: keys[j] in gone <==> j < n && !isDir(keys[j]))
  }

  lemma StillThere(t: Tables, keys: seq<Path>, n: nat, gone: set<Path>, isDir: Path -> bool)
    requires Cleaned(t.byPath, keys, n, gone, isDir) && n < |keys|
    requires Agreement(t.byPath - gone, t.byWd - Wds(t, gone))
    ensures keys[n] in t.byPath - gone && IsAbsolute(keys[n])
  {
  }

  /** The indexes are those of `t` without `gone`, whose descriptors were given back. */
  ghost predicate Without(t: Tables, gone: set<Path>, byPath: map<Path, Watch>, byWd: map<int, Watch>,
                          before: set<int>, retired: set<int>) {
    byPath == t.byPath - gone && byWd == t.byWd - Wds(t, gone) && retired == before + Wds(t, gone)
  }

  lemma CleanedNext(t: Tables, keys: seq<Path>, n: nat, gone: set<Path>, isDir: Path -> bool)
    requires Cleaned(t.byPath, keys, n, gone, isDir) && n < |keys| && keys[n] in t.byPath
    ensures isDir(keys[n]) ==> Cleaned(t.byPath, keys, n + 1, gone, isDir)
    ensures !isDir(keys[n]) ==>
              && keys[n] !in gone && Cleaned(t.byPath, keys, n + 1, gone + {keys[n]}, isDir)
              && Wds(t, gone + {keys[n]}) == Wds(t, gone) + {t.byPath[keys[n]].wd}
              && (t.byWd - Wds(t, gone)) - {t.byPath[keys[n]].wd} == t.byWd - Wds(t, gone + {keys[n]})
              && (t.byPath - gone) - {keys[n]} == t.byPath - (gone + {keys[n]})
  {
    if !isDir(keys[n]) { OneMoreGone(t, gone, keys[n]); }
  }

  lemma OnlyDirsLeft(m: map<Path, Watch>, keys: seq<Path>, gone: set<Path>, isDir: Path -> bool)
    requires Cleaned(m, keys, |keys|, gone, isDir)
    ensures m - gone == map p | p in m && isDir(p) :: m[p]
    ensures gone <= m.Keys && forall p | p in m :: p in gone <==> !isDir(p)
    ensures |m - gone| == |m| - |gone| && m.Keys - (m - gone).Keys == gone
  {
    SubtractSize(m, gone);
    assert forall p :: p in m <==> p in keys;
  }

  lemma CleanedAll(t: Tables, keys: seq<Path>, gone: set<Path>, isDir: Path -> bool, byPath: map<Path, Watch>,
                   byWd: map<int, Watch>, before: set<int>, retired: set<int>)
    requires Cleaned(t.byPath, keys, |keys|, gone, isDir) && Without(t, gone, byPath, byWd, before, retired)
    ensures byPath == map p | p in t.byPath && isDir(p) :: t.byPath[p]
    ensures byWd == t.byWd - Wds(t, t.byPath.Keys - byPath.Keys)
    ensures forall d :: d in retired <==>
              d in before || exists p :: p in t.byPath && !isDir(p) && t.byPath[p].wd == d
    ensures |gone| == |t.byPath| - |byPath|
  {
    OnlyDirsLeft(t.byPath, keys, gone, isDir);
    WdsOf(t, gone, isDir);
  }

  lemma BelowWds(t: Tables, dir: Path)
    ensures forall d :: d in Wds(t, Below(t, dir)) <==>
              exists p :: p in t.byPath && dir + "/" <= p && t.byPath[p].wd == d
  {
  }

  lemma WdsOf(t: Tables, gone: set<Path>, isDir: Path -> bool)
    requires gone <= t.byPath.Keys && forall p | p in t.byPath :: p in gone <==> !isDir(p)
    ensures forall d :: d in Wds(t, gone) <==> exists p :: p in t.byPath && !isDir(p) && t.byPath[p].wd == d
  {
  }

  lemma SubtractSize(m: map<Path, Watch>, gone: set<Path>)
    requires gone <= m.Keys
    ensures |m - gone| == |m| - |gone| && m.Keys - (m - gone).Keys == gone
  {
  }

  /** Forgetting one more path after `gone`. */
  lemma OneMoreGone(t: Tables, gone: set<Path>, path: Path)
    requires path in t.byPath
    ensures Wds(t, gone + {path}) == Wds(t, gone) + {t.byPath[path].wd}
    ensures (t.byWd - Wds(t, gone)) - {t.byPath[path].wd} == t.byWd - Wds(t, gone + {path})
    ensures (t.byPath - gone) - {path} == t.byPath - (gone + {path})
  {
  }

  /** What the two removal sections retire is what vanishes. */
  lemma VanishedWds(t: Tables, mask: Word, abs: Path)
    requires Vanishes(mask) && abs in t.byPath
    ensures var t1 := ForgetAbsolute(t, abs);
            Wds(t, Vanished(t, mask, abs))
            == {t.byPath[abs].wd} + if Has(mask, IN_MOVED_FROM) then Wds(t1, Below(t1, abs)) else {}
  {
    var t1 := ForgetAbsolute(t, abs);
    if Has(mask, IN_MOVED_FROM) {
      assert Below(t1, abs) == Below(t, abs);
      assert Wds(t, {abs} + Below(t, abs)) == {t.byPath[abs].wd} + Wds(t1, Below(t1, abs));
    } else {
      assert Wds(t, {abs}) == {t.byPath[abs].wd};
    }
  }
}
