/**
 The string operations the daemon is written in: `strstr`, prefix tests and the
 relations between directory paths that they are meant to decide.
 */
module CString {

  type Path = string

  datatype Option<+T> = None | Some(value: T)

  /** The suffix rsync gives its scratch directories (src/inotify.c:264). */
  const TMP: string := ".~tmp~"

  predicate OccursAt(s: string, n: string, i: nat) {
    i + |n| <= |s| && s[i..i + |n|] == n
  }

  /** `strstr(s, n) != NULL`. */
  predicate Occurs(s: string, n: string) {
    exists i | 0 <= i <= |s| :: OccursAt(s, n, i)
  }

  /** `strstr`: the first position at which `n` occurs in `s`. */
  function StrStr(s: string, n: string): (r: Option<nat>)
    ensures r.None? <==> !Occurs(s, n)
    ensures r.Some? ==> OccursAt(s, n, r.value) && forall j | 0 <= j < r.value :: !OccursAt(s, n, j)
  {
    StrStrFrom(s, n, 0)
  }

  function StrStrFrom(s: string, n: string, i: nat): (r: Option<nat>)
    requires i <= |s|
    ensures r.None? ==> forall j | i <= j <= |s| :: !OccursAt(s, n, j)
    ensures r.Some? ==> i <= r.value <= |s| && OccursAt(s, n, r.value)
    ensures r.Some? ==> forall j | i <= j < r.value :: !OccursAt(s, n, j)
    decreases |s| - i
  {
    if OccursAt(s, n, i) then Some(i)
    else if i == |s| then None
    else StrStrFrom(s, n, i + 1)
  }

  /** An rsync scratch path: its first `.~tmp~` is its end. */
  predicate TmpTail(s: string) {
    && |TMP| <= |s|
    && OccursAt(s, TMP, |s| - |TMP|)
    && forall j | 0 <= j < |s| - |TMP| :: !OccursAt(s, TMP, j)
  }

  /** The daemon's test for it: the character after the `strstr` match is the terminator. */
  lemma TmpTailByStrStr(s: string)
    ensures TmpTail(s) <==> StrStr(s, TMP) == Some(|s| - |TMP|)
  {
  }

  predicate IsAbsolute(p: Path) {
    |p| > 0 && p[0] == '/'
  }

  /** `p` is `r` or lies below it: the relation the root lookups stand for. */
  predicate Under(p: Path, r: Path) {
    p == r || r + "/" <= p
  }

  /** The path of entry `name` of directory `dir` (src/inotify.c:1471-1474). */
  function Child(dir: Path, name: string): Path {
    if dir == "/" then "/" + name else dir + "/" + name
  }

  /** `order` lists exactly the elements of `keys`, each once: one possible
      iteration order of a hash table. */
  ghost predicate Enumerates<T(!new)>(order: seq<T>, keys: set<T>) {
    && (forall x :: x in order <==> x in keys)
    && (forall i, j | 0 <= i < j < |order| :: order[i] != order[j])
  }

  lemma PrefixOccurs(n: string, s: string)
    requires n <= s
    ensures Occurs(s, n)
  {
    assert OccursAt(s, n, 0);
  }

  /** `strstr(s, n) == s` is the prefix test. */
  lemma StrStrAtZero(s: string, n: string)
    ensures StrStr(s, n) == Some(0) <==> n <= s
  {
  }

  /** Two directories above a common path are comparable. */
  lemma UnderComparable(p: Path, a: Path, b: Path)
    requires Under(p, a) && Under(p, b)
    ensures Under(a, b) || Under(b, a)
  {
    if p != a && p != b {
      if |a| < |b| {
        assert b[..|a| + 1] == p[..|a| + 1] == a + "/";
      } else if |b| < |a| {
        assert a[..|b| + 1] == p[..|b| + 1] == b + "/";
      } else {
        assert a == p[..|a|] == b;
      }
    }
  }

  lemma ChildUnder(dir: Path, name: string, r: Path)
    requires Under(dir, r) && r != "/" && r != ""
    ensures Under(Child(dir, name), r)
  {
  }

  lemma EnumeratesSize<T(!new)>(order: seq<T>, keys: set<T>)
    requires Enumerates(order, keys)
    ensures |order| == |keys|
  {
    if order == [] {
      assert keys == {};
    } else {
      var rest := keys - {order[0]};
      assert Enumerates(order[1..], rest) by {
        forall x ensures x in order[1..] <==> x in rest {
          if x in rest {
            var i :| 0 <= i < |order| && order[i] == x;
            assert order[1..][i - 1] == x;
          }
        }
      }
      EnumeratesSize(order[1..], rest);
    }
  }
}
