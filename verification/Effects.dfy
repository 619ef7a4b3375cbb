/**
 What one kernel record does, told by the digits of its mask and the fields of the
 tables alone.
 */
module Effects {
  import opened CString
  import opened Tables
  import opened Flags
  import opened Safety
  import opened Daemon

  /** The record is looked at: it has a name, which is no scratch name; it reports no
      overflow (digit 14), no ignored watch (15) and no directory (30) closed unwritten (4). */
  predicate Seen(rec: Record) {
    && rec.len != 0
    && !Bit(rec.mask, 14) && !Bit(rec.mask, 15) && !(Bit(rec.mask, 30) && Bit(rec.mask, 4))
    && StrStr(rec.name, ".~tmp~") != Some(|rec.name| - 6)
  }

  /** A directory (30) was created (8) or moved in (7). */
  predicate ComesIn(m: Word) {
    Bit(m, 30) && (Bit(m, 8) || Bit(m, 7))
  }

  /** A directory was deleted (9) or moved out (6). */
  predicate GoesOut(m: Word) {
    Bit(m, 30) && !Bit(m, 8) && !Bit(m, 7) && (Bit(m, 9) || Bit(m, 6))
  }

  /** `p` goes with the directory `gone`: it is that, or below it and `gone` was moved. */
  predicate GoesWith(m: Word, gone: Path, p: Path) {
    p == gone || (Bit(m, 6) && gone + "/" <= p)
  }

  /** The path of the entry a record names, in a directory. */
  function Entry(dir: Path, name: string): Path {
    if dir == "/" then "//" else dir + "/" + name
  }

  lemma SeenExactly(rec: Record)
    ensures Ignored(rec) <==> !Seen(rec)
  {
    FlagDigits(rec.mask);
    TmpTailByStrStr(rec.name);
  }

  lemma DirectionExactly(m: Word)
    ensures (Appears(m) <==> ComesIn(m)) && (Vanishes(m) <==> GoesOut(m))
  {
    FlagDigits(m);
  }

  // ---- records without effect --------------------------------------------

  /** The directory of a record that is acted on, and its root. */
  predicate FiledUnder(t: Tables, order: seq<Path>, rec: Record, id: RootId)
    requires t.Indexed()
  {
    && rec.wd in t.byWd && PathToRoot(t.roots, order, t.byWd[rec.wd].path) == Some(id) && id < |t.objs|
    && !t.objs[id].pause && !t.objs[id].destroy
  }

  lemma LookupSays(t: Tables, order: seq<Path>, rec: Record)
    requires t.Indexed()
    ensures forall id | FiledUnder(t, order, rec, id) :: Lookup(t, order, rec) == Some(Target(t.byWd[rec.wd].path, id))
    ensures Lookup(t, order, rec).Some? ==> FiledUnder(t, order, rec, Lookup(t, order, rec).value.root)
  {
  }

  /** A record is acted on exactly if it is looked at, its descriptor is indexed and the
      root of that directory is neither paused nor being destroyed, unless a directory
      goes out that is not indexed. */
  predicate ActedOn(t: Tables, order: seq<Path>, rec: Record, id: RootId)
    requires t.Indexed()
  {
    && Seen(rec) && FiledUnder(t, order, rec, id)
    && !(GoesOut(rec.mask) && Entry(t.byWd[rec.wd].path, rec.name) !in t.byPath)
  }

  lemma HandledAs(order: seq<Path>, w: World, rec: Record, id: RootId)
    requires w.t.Indexed() && Agreement(w.t.byPath, w.t.byWd) && ActedOn(w.t, order, rec, id)
    ensures HandleOne(order, w, rec) == FileRecord(w, rec, w.t.byWd[rec.wd].path, id)
    ensures !Dropped(w.t, rec.mask, w.t.byWd[rec.wd].path, Entry(w.t.byWd[rec.wd].path, rec.name))
    ensures EventPath(w.t.byWd[rec.wd].path, rec.name) == Entry(w.t.byWd[rec.wd].path, rec.name)
  {
    SeenExactly(rec);
    DirectionExactly(rec.mask);
    assert "/" + "/" == "//";
  }

  /** Every other record is without any effect. */
  lemma OthersAreIdle(order: seq<Path>, w: World, rec: Record)
    requires w.t.Indexed() && !exists id :: ActedOn(w.t, order, rec, id)
    ensures HandleOne(order, w, rec) == w
  {
    SeenExactly(rec);
    LookupSays(w.t, order, rec);
    var target := Lookup(w.t, order, rec);
    if Seen(rec) && target.Some? {
      assert !ActedOn(w.t, order, rec, target.value.root);
      DirectionExactly(rec.mask);
      assert "/" + "/" == "//";
      assert EventPath(target.value.path, rec.name) == Entry(target.value.path, rec.name);
    }
  }

  // ---- directories -------------------------------------------------------

  /** What a record that is acted on does to the indexes and the walkers: a directory
      that comes in is walked for its root and nothing else happens; one that goes out
      leaves both indexes, after a move with all below it, and exactly their descriptors
      are given back; any other record leaves the indexes and the walkers alone. */
  lemma DirectoryEffect(order: seq<Path>, w: World, rec: Record, id: RootId)
    requires w.t.Indexed() && Agreement(w.t.byPath, w.t.byWd) && ActedOn(w.t, order, rec, id)
    ensures var abs, w' := Entry(w.t.byWd[rec.wd].path, rec.name), HandleOne(order, w, rec);
            && w'.walks == (if ComesIn(rec.mask) then w.walks + [Walk(abs, id, false)] else w.walks)
            && (!GoesOut(rec.mask) ==>
                  w'.t.byPath == w.t.byPath && w'.t.byWd == w.t.byWd && w'.retired == w.retired)
            && (GoesOut(rec.mask) ==>
                  && (forall p :: p in w'.t.byPath <==> p in w.t.byPath && !GoesWith(rec.mask, abs, p))
                  && (forall p | p in w'.t.byPath :: w'.t.byPath[p] == w.t.byPath[p])
                  && (forall d :: d in w'.t.byWd <==>
                        d in w.t.byWd
                        && !exists p :: p in w.t.byPath && GoesWith(rec.mask, abs, p) && w.t.byPath[p].wd == d)
                  && (forall d | d in w'.t.byWd :: w'.t.byWd[d] == w.t.byWd[d])
                  && (forall d :: d in w'.retired <==>
                        d in w.retired
                        || exists p :: p in w.t.byPath && GoesWith(rec.mask, abs, p) && w.t.byPath[p].wd == d))
  {
    var dir := w.t.byWd[rec.wd].path;
    var abs := Entry(dir, rec.name);
    var gone := Vanished(w.t, rec.mask, abs);
    HandledAs(order, w, rec, id);
    DirectionExactly(rec.mask);
    ChildAbsolute(dir, rec.name);
    PruneIsExact(w.t, rec.mask, abs);
    if GoesOut(rec.mask) {
      VanishedSays(w.t, rec.mask, abs);
    } else {
      assert gone == {} && Wds(w.t, gone) == {};
    }
  }

  lemma VanishedSays(t: Tables, m: Word, abs: Path)
    requires GoesOut(m) && abs in t.byPath
    ensures forall p :: p in Vanished(t, m, abs) <==> p in t.byPath && GoesWith(m, abs, p)
    ensures forall d :: d in Wds(t, Vanished(t, m, abs)) <==>
              exists p :: p in t.byPath && GoesWith(m, abs, p) && t.byPath[p].wd == d
  {
    DirectionExactly(m);
    FlagDigits(m);
    GoneWds(t, m, abs, Vanished(t, m, abs));
  }

  lemma GoneWds(t: Tables, m: Word, abs: Path, gone: set<Path>)
    requires forall p :: p in gone <==> p in t.byPath && GoesWith(m, abs, p)
    ensures forall d :: d in Wds(t, gone) <==> exists p :: p in t.byPath && GoesWith(m, abs, p) && t.byPath[p].wd == d
  {
    forall d | d in Wds(t, gone) ensures exists p :: p in t.byPath && GoesWith(m, abs, p) && t.byPath[p].wd == d {
      var p :| p in t.byPath && p in gone && t.byPath[p].wd == d;
    }
  }

  // ---- queues ------------------------------------------------------------

  /** `e` tells of the record, in directory `dir`. */
  predicate TellsOf(e: Event, rec: Record, dir: Path) {
    && e.wd == rec.wd && e.mask == rec.mask && e.cookie == rec.cookie && e.len == rec.len
    && e.name == rec.name && e.path == dir
  }

  /** The record is of a kind the root asked for, and there is room. */
  ghost predicate Wanted(r: Root, rec: Record) {
    (exists k: nat :: ShareBit(rec.mask, r.mask, k)) && |r.queue| < r.maxEvents
  }

  /** A record that is acted on adds an event to its root's queue exactly if the root
      asked for one of its digits and has room; nothing else of any Root changes. */
  lemma QueueEffect(order: seq<Path>, w: World, rec: Record, id: RootId)
    requires w.t.Indexed() && Agreement(w.t.byPath, w.t.byWd) && ActedOn(w.t, order, rec, id)
    ensures var r, w' := w.t.objs[id], HandleOne(order, w, rec);
            && w'.t.roots == w.t.roots && w'.t.numRoots == w.t.numRoots && |w'.t.objs| == |w.t.objs|
            && (forall i | 0 <= i < |w.t.objs| && i != id :: w'.t.objs[i] == w.t.objs[i])
            && w'.t.objs[id] == r.(queue := w'.t.objs[id].queue)
            && (!Wanted(r, rec) ==> w'.t.objs[id].queue == r.queue)
            && (Wanted(r, rec) ==>
                  && |w'.t.objs[id].queue| == |r.queue| + 1 && w'.t.objs[id].queue[..|r.queue|] == r.queue
                  && TellsOf(w'.t.objs[id].queue[|r.queue|], rec, w.t.byWd[rec.wd].path))
  {
    HandledAs(order, w, rec, id);
    IntersectsIsCommonBit(rec.mask, w.t.objs[id].mask);
  }
}
