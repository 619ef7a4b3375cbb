/**
 Whose directory is it? When the `strstr` scan over the root table finds the
 root above a path.
 */
module Owners {
  import opened CString
  import opened Tables
  import opened Safety

  /** No path lies under two different roots. */
  lemma OneRootAbove(roots: set<Path>, p: Path, a: Path, b: Path)
    requires Antichain(roots) && a in roots && b in roots && Under(p, a) && Under(p, b)
    ensures a == b
  {
    UnderComparable(p, a, b);
    if a != b {
      if Under(a, b) { PrefixOccurs(b + "/", a); } else { PrefixOccurs(a + "/", b); }
    }
  }

  /** `path` is not in danger of being filed under a root that is not above it:
      a root string that occurs in it is a prefix of it. */
  ghost predicate Unambiguous(roots: set<Path>, path: Path) {
    forall r | r in roots :: Occurs(path, r + "/") ==> r + "/" <= path
  }

  /** The root above `path`; OneRootAbove says there is at most one. */
  ghost function Owner(roots: map<Path, RootId>, path: Path): Option<RootId> {
    if exists r :: r in roots && Under(path, r) then
      var r :| r in roots && Under(path, r);
      Some(roots[r])
    else None
  }

  /** The root lookup gives the root above `path`, or none if there is none,
      whatever order the table is iterated in. */
  ghost predicate FindsOwner(roots: map<Path, RootId>, path: Path) {
    forall order | Enumerates(order, roots.Keys) :: PathToRoot(roots, order, path) == Owner(roots, path)
  }

  /** For an antichain of roots other than `/` that is so exactly for the
      unambiguous paths. */
  lemma OwnerLookup(roots: map<Path, RootId>, path: Path)
    requires Antichain(roots.Keys) && "/" !in roots
    requires forall p, q | p in roots && q in roots && p != q :: roots[p] != roots[q]
    ensures FindsOwner(roots, path) <==> Unambiguous(roots.Keys, path)
  {
    if Unambiguous(roots.Keys, path) {
      forall order | Enumerates(order, roots.Keys) ensures PathToRoot(roots, order, path) == Owner(roots, path) {
        UnambiguousFindsOwner(roots, order, path);
      }
    } else {
      var r :| r in roots.Keys && Occurs(path, r + "/") && !(r + "/" <= path);
      var order := OrderFrom(roots.Keys, r);
      assert FirstMatch(order, path) == Some(r);
      OccursLonger(path, r + "/");
    }
  }

  lemma OccursLonger(s: string, n: string)
    requires Occurs(s, n)
    ensures |n| <= |s|
  {
  }

  lemma UnambiguousFindsOwner(roots: map<Path, RootId>, order: seq<Path>, path: Path)
    requires Antichain(roots.Keys) && "/" !in roots
    requires Unambiguous(roots.Keys, path) && Enumerates(order, roots.Keys)
    ensures PathToRoot(roots, order, path) == Owner(roots, path)
  {
    match FirstMatch(order, path)
    case Some(k) =>
      assert k in roots.Keys && Under(path, k);
      forall r | r in roots && Under(path, r) ensures r == k {
        OneRootAbove(roots.Keys, path, r, k);
      }
    case None =>
      forall r | r in roots ensures !Under(path, r) {
        assert r in order;
        if r + "/" <= path { PrefixOccurs(r + "/", path); }
      }
  }

  /** An iteration order that starts with `first`. */
  ghost function OrderFrom(keys: set<Path>, first: Path): (order: seq<Path>)
    requires first in keys
    ensures Enumerates(order, keys) && order[0] == first
  {
    [first] + OrderOf(keys - {first})
  }

  ghost function OrderOf(keys: set<Path>): (order: seq<Path>)
    ensures Enumerates(order, keys)
  {
    if keys == {} then [] else
    var k :| k in keys;
    [k] + OrderOf(keys - {k})
  }

  /** Two roots that the watch checks accept together, and a directory below the
      first that iteration order may file under the second. */
  lemma AmbiguousExample()
    ensures var roots := {"/a/b", "/b"};
            && Antichain(roots) && Clear({"/a/b"}, "/b")
            && !Unambiguous(roots, "/a/b/c") && Under("/a/b/c", "/a/b") && !Under("/a/b/c", "/b")
            && FirstMatch(["/b", "/a/b"], "/a/b/c") == Some("/b")
  {
    var b := "/b" + "/";
    assert OccursAt("/a/b/c", b, 2);
    assert b[1] != "/a/b/c"[1] && b[1] != "/a/b"[1] && b[0] != "/a/b"[1];
    if Occurs("/b", "/a/b" + "/") { OccursLonger("/b", "/a/b" + "/"); }
  }

  /** `/` is accepted beside any root without an empty path component, although
      every absolute path lies below it; and no root is accepted beside `/`. */
  lemma SlashCollides(roots: set<Path>, path: Path)
    requires Antichain(roots) && "/" !in roots
    ensures Clear(roots, "/") <==> forall r | r in roots :: !Occurs(r, "//")
    ensures !Clear(roots + {"/"}, path)
  {
    assert "/" + "/" == "//";
    forall k | k in roots ensures !Occurs("/", k + "/") {
      if Occurs("/", k + "/") { OccursLonger("/", k + "/"); }
    }
  }

  /** `/` comes before every other root: while it is watched everything is filed under
      it, also what lies in the tree of another watched root. */
  lemma SlashTakesAll(roots: map<Path, RootId>, order: seq<Path>, path: Path)
    requires "/" in roots
    ensures PathToRoot(roots, order, path) == Some(roots["/"])
  {
  }

  /** Which error a watch meets, and when it meets none. */
  lemma RefusalSays(t: Tables, order: seq<Path>, path: Path)
    requires t.Indexed() && Antichain(t.roots.Keys) && Enumerates(order, t.roots.Keys)
    ensures Refusal(t, order, path) ==
              if "/" in t.roots && path != "/" then Some(ChildOfRoot)
              else if path in t.roots && t.objs[t.roots[path]].destroy then Some(RootBeingDestroyed)
              else if path in t.roots then Some(RootAlreadyWatched)
              else if exists k :: k in t.roots && Occurs(path, k + "/") then Some(ChildOfRoot)
              else if exists k :: k in t.roots && Occurs(k, path + "/") then Some(ParentOfRoot)
              else None
  {
    assert forall k :: k in order <==> k in t.roots.Keys;
  }

  /** The same for a path that is not itself watched, whatever the roots. */
  lemma RefusalOfNew(t: Tables, order: seq<Path>, path: Path)
    requires t.Indexed() && path !in t.roots && Enumerates(order, t.roots.Keys)
    ensures Refusal(t, order, path) ==
              if "/" in t.roots || (exists k :: k in t.roots && Occurs(path, k + "/")) then Some(ChildOfRoot)
              else if exists k :: k in t.roots && Occurs(k, path + "/") then Some(ParentOfRoot)
              else None
    ensures Refusal(t, order, path).None? <==> Clear(t.roots.Keys, path)
  {
    RefusalIsClear(t, order, path);
    assert forall k :: k in order <==> k in t.roots.Keys;
  }
}
