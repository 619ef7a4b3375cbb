/**
 What a watched `/` does to an unwatch beside it: a run, from an empty registry,
 in which `/a` is unwatched while `/` is watched too.
 */
module SlashRoot {
  import opened CString
  import opened Tables
  import opened Threads
  import opened Owners
  import opened Scenario

  const S: Path := "/"
  const A: Path := "/a"
  const X: Path := "/a/x"

  const ROOT_A: Root := Root(A, 0x100, 1, [], false, false, false, false)
  const ROOT_S: Root := Root(S, 0x100, 1, [], false, false, false, false)
  const GONE_A: Root := ROOT_A.(freed := true, destroy := true)

  lemma Strings()
    ensures Child(S, "a") == A && Child(A, "x") == X
    ensures !TmpTail(S) && !TmpTail(A) && !TmpTail(X)
    ensures A != S && X != S && X != A && A + "/" <= X && WatchKey(A) == A && WatchKey(S) == S
  {
  }

  // ---- `/a` and `/` are watched ------------------------------------------

  ghost function OnlyA(disp: Dispatch): State {
    State(Tables(map[A := 0], [ROOT_A], map[], map[], 1), {}, disp, map[0 := Walker(0, false, Begin(A))], map[], map[])
  }

  ghost function Both(a: Root, byPath: map<Path, Watch>, byWd: map<int, Watch>, phase: Phase,
                      ds: map<Tid, Destroyer>): State {
    State(Tables(map[A := 0, S := 1], [a, ROOT_S], byPath, byWd, 2), {}, Idle,
          map[0 := Walker(0, false, Begin(A)), 1 := Walker(1, false, phase)], ds, map[])
  }

  lemma WatchA()
    ensures Goes(INIT, Dispatcher(WatchCheck(A, 0x100, 1, false, [])), INIT.(disp := Admitted(A, 0x100, 1, false)))
    ensures Goes(INIT.(disp := Admitted(A, 0x100, 1, false)), Dispatcher(WatchInsert(true, 0)), OnlyA(Idle))
  {
    Strings();
  }

  lemma SlashIsClear()
    ensures Clear({A}, S)
  {
    if Occurs(S, A + "/") { OccursLonger(S, A + "/"); }
    forall j | 0 <= j <= |A| ensures !OccursAt(A, S + "/", j) {
      if j == 0 { assert A[0..2][1] != (S + "/")[1]; }
    }
  }

  lemma CheckSlash()
    ensures Goes(OnlyA(Idle), Dispatcher(WatchCheck(S, 0x100, 1, false, [A])), OnlyA(Admitted(S, 0x100, 1, false)))
  {
    SlashIsClear();
    Strings();
    assert OnlyA(Idle).t.roots.Keys == {A};
    RefusalIsClear(OnlyA(Idle).t, [A], S);
  }

  lemma InsertSlash()
    ensures Goes(OnlyA(Admitted(S, 0x100, 1, false)), Dispatcher(WatchInsert(true, 1)),
                 Both(ROOT_A, map[], map[], Begin(S), map[]))
  {
    Strings();
  }

  lemma RunToBoth() returns (ss: seq<State>, acts: seq<Action>)
    ensures Reaches(ss, acts, Both(ROOT_A, map[], map[], Begin(S), map[]))
  {
    WatchA();
    CheckSlash();
    InsertSlash();
    ss, acts := Go([INIT], [], Dispatcher(WatchCheck(A, 0x100, 1, false, [])),
                   INIT.(disp := Admitted(A, 0x100, 1, false)));
    ss, acts := Go(ss, acts, Dispatcher(WatchInsert(true, 0)), OnlyA(Idle));
    ss, acts := Go(ss, acts, Dispatcher(WatchCheck(S, 0x100, 1, false, [A])), OnlyA(Admitted(S, 0x100, 1, false)));
    ss, acts := Go(ss, acts, Dispatcher(WatchInsert(true, 1)), Both(ROOT_A, map[], map[], Begin(S), map[]));
  }

  // ---- `/a` is being unwatched and `/` is walked meanwhile ---------------

  const SWEEP: map<Tid, Destroyer> := map[0 := Sweeping(0, [])]

  ghost function Walked(byPath: map<Path, Watch>, byWd: map<int, Watch>, phase: Phase): State {
    Both(GONE_A, byPath, byWd, phase, SWEEP)
  }

  const PATHS_S: map<Path, Watch> := map[S := Watch(1, S)]
  const PATHS_SA: map<Path, Watch> := map[S := Watch(1, S), A := Watch(2, A)]
  const PATHS_SAX: map<Path, Watch> := map[S := Watch(1, S), A := Watch(2, A), X := Watch(3, X)]
  const PATHS_SX: map<Path, Watch> := map[S := Watch(1, S), X := Watch(3, X)]
  const WDS_S: map<int, Watch> := map[1 := Watch(1, S)]
  const WDS_SA: map<int, Watch> := map[1 := Watch(1, S), 2 := Watch(2, A)]
  const WDS_SAX: map<int, Watch> := map[1 := Watch(1, S), 2 := Watch(2, A), 3 := Watch(3, X)]
  const WDS_SX: map<int, Watch> := map[1 := Watch(1, S), 3 := Watch(3, X)]

  const OPEN_S: Stack := Open(S, [], Bottom)
  const OPEN_A: Stack := Open(A, [], OPEN_S)
  const OPEN_X: Stack := Open(X, [], OPEN_A)

  lemma UnwatchA()
    ensures Goes(Both(ROOT_A, map[], map[], Begin(S), map[]), Dispatcher(Unwatch(A, 0)),
                 Both(ROOT_A.(destroy := true), map[], map[], Begin(S), map[0 := Started(0)]))
  {
    Strings();
  }

  lemma SnapshotA()
    ensures Goes(Both(ROOT_A.(destroy := true), map[], map[], Begin(S), map[0 := Started(0)]),
                 DestroyerOf(0, DestroyBegin([])), Walked(map[], map[], Begin(S)))
  {
  }

  lemma VisitSlash()
    ensures Goes(Walked(map[], map[], Begin(S)), WalkerOf(1, WalkBegin), Walked(map[], map[], Visit(S, Bottom)))
    ensures Goes(Walked(map[], map[], Visit(S, Bottom)), WalkerOf(1, WalkVisit(Hooked(1, ["a"]))),
                 Walked(PATHS_S, WDS_S, Scan(Open(S, ["a"], Bottom))))
  {
    Strings();
  }

  lemma VisitA()
    ensures Goes(Walked(PATHS_S, WDS_S, Scan(Open(S, ["a"], Bottom))), WalkerOf(1, WalkScan),
                 Walked(PATHS_S, WDS_S, Visit(A, OPEN_S)))
    ensures Goes(Walked(PATHS_S, WDS_S, Visit(A, OPEN_S)), WalkerOf(1, WalkVisit(Hooked(2, ["x"]))),
                 Walked(PATHS_SA, WDS_SA, Scan(Open(A, ["x"], OPEN_S))))
  {
    Strings();
    assert ["a"][1..] == [];
  }

  lemma VisitX()
    ensures Goes(Walked(PATHS_SA, WDS_SA, Scan(Open(A, ["x"], OPEN_S))), WalkerOf(1, WalkScan),
                 Walked(PATHS_SA, WDS_SA, Visit(X, OPEN_A)))
    ensures Goes(Walked(PATHS_SA, WDS_SA, Visit(X, OPEN_A)), WalkerOf(1, WalkVisit(Hooked(3, []))),
                 Walked(PATHS_SAX, WDS_SAX, Scan(OPEN_X)))
  {
    Strings();
    assert ["x"][1..] == [];
  }

  lemma RunToWalked() returns (ss: seq<State>, acts: seq<Action>)
    ensures Reaches(ss, acts, Walked(PATHS_SAX, WDS_SAX, Scan(OPEN_X)))
  {
    UnwatchA();
    SnapshotA();
    VisitSlash();
    VisitA();
    VisitX();
    ss, acts := RunToBoth();
    ss, acts := Go(ss, acts, Dispatcher(Unwatch(A, 0)),
                   Both(ROOT_A.(destroy := true), map[], map[], Begin(S), map[0 := Started(0)]));
    ss, acts := Go(ss, acts, DestroyerOf(0, DestroyBegin([])), Walked(map[], map[], Begin(S)));
    ss, acts := Go(ss, acts, WalkerOf(1, WalkBegin), Walked(map[], map[], Visit(S, Bottom)));
    ss, acts := Go(ss, acts, WalkerOf(1, WalkVisit(Hooked(1, ["a"]))),
                   Walked(PATHS_S, WDS_S, Scan(Open(S, ["a"], Bottom))));
    ss, acts := Go(ss, acts, WalkerOf(1, WalkScan), Walked(PATHS_S, WDS_S, Visit(A, OPEN_S)));
    ss, acts := Go(ss, acts, WalkerOf(1, WalkVisit(Hooked(2, ["x"]))),
                   Walked(PATHS_SA, WDS_SA, Scan(Open(A, ["x"], OPEN_S))));
    ss, acts := Go(ss, acts, WalkerOf(1, WalkScan), Walked(PATHS_SA, WDS_SA, Visit(X, OPEN_A)));
    ss, acts := Go(ss, acts, WalkerOf(1, WalkVisit(Hooked(3, []))), Walked(PATHS_SAX, WDS_SAX, Scan(OPEN_X)));
  }

  // ---- the unwatch ends, and then the walkers do -------------------------

  ghost function Unwatched(walkers: map<Tid, Walker>): State {
    State(Tables(map[S := 1], [GONE_A, ROOT_S], PATHS_SX, WDS_SX, 1), {}, Idle, walkers, map[], map[])
  }

  ghost function Ending(open: Stack): State {
    Unwatched(map[0 := Walker(0, false, Begin(A)), 1 := Walker(1, false, Scan(open))])
  }

  lemma WithoutA()
    ensures PATHS_SAX - {A} == PATHS_SX && WDS_SAX - {2} == WDS_SX && map[A := 0, S := 1] - {A} == map[S := 1]
  {
    Strings();
  }

  lemma EndUnwatchA()
    ensures Goes(Walked(PATHS_SAX, WDS_SAX, Scan(OPEN_X)), DestroyerOf(0, DestroyEnd), Ending(OPEN_X))
  {
    WithoutA();
  }

  lemma EndWalks()
    ensures Goes(Ending(OPEN_X), WalkerOf(1, WalkScan), Ending(OPEN_A))
    ensures Goes(Ending(OPEN_A), WalkerOf(1, WalkScan), Ending(OPEN_S))
    ensures Goes(Ending(OPEN_S), WalkerOf(1, WalkScan), Ending(Bottom))
  {
  }

  lemma EndWalkers()
    ensures Goes(Ending(Bottom), WalkerOf(1, WalkEnd), Unwatched(map[0 := Walker(0, false, Begin(A))]))
    ensures Goes(Unwatched(map[0 := Walker(0, false, Begin(A))]), WalkerOf(0, WalkBegin), Unwatched(map[]))
  {
    var ws: map<Tid, Walker> := map[0 := Walker(0, false, Begin(A)), 1 := Walker(1, false, Scan(Bottom))];
    assert ws - {1} == map[0 := Walker(0, false, Begin(A))];
    assert map[0 := Walker(0, false, Begin(A))] - {0} == map[];
  }

  /** Beside `/` an unwatch goes wrong both ways. When the destroyer of `/a` ends,
      `/a/x` is still indexed; and when all walkers are done, `/a` is not, although
      `/` is watched, live and registered and had come past it. */
  lemma SlashSpoilsUnwatch() returns (ss: seq<State>, acts: seq<Action>, end: nat)
    ensures Run(ss, acts) && ss[0] == INIT && end < |acts| && acts[end] == DestroyerOf(0, DestroyEnd)
    ensures A in ss[end].t.roots && A !in ss[end + 1].t.roots && X in ss[end + 1].t.byPath && Under(X, A)
    ensures var s := ss[|acts|];
            && s.walkers == map[] && s.destroyers == map[] && s.t.roots == map[S := 1]
            && |s.t.objs| == 2 && !s.t.objs[1].destroy
            && S in s.t.byPath && X in s.t.byPath && A !in s.t.byPath && A == Child(S, "a")
  {
    Strings();
    EndUnwatchA();
    EndWalks();
    EndWalkers();
    ss, acts := RunToWalked();
    end := |acts|;
    ss, acts := Go(ss, acts, DestroyerOf(0, DestroyEnd), Ending(OPEN_X));
    ss, acts := Go(ss, acts, WalkerOf(1, WalkScan), Ending(OPEN_A));
    ss, acts := Go(ss, acts, WalkerOf(1, WalkScan), Ending(OPEN_S));
    ss, acts := Go(ss, acts, WalkerOf(1, WalkScan), Ending(Bottom));
    ss, acts := Go(ss, acts, WalkerOf(1, WalkEnd), Unwatched(map[0 := Walker(0, false, Begin(A))]));
    ss, acts := Go(ss, acts, WalkerOf(0, WalkBegin), Unwatched(map[]));
  }
}
