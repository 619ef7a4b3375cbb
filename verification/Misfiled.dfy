/**
 Why unwatching needs its hypothesis: a run, from an empty registry, in which an
 event filed under the wrong root leaves a directory of an unwatched tree indexed.
 */
module Misfiled {
  import opened CString
  import opened Tables
  import opened Threads
  import opened Owners
  import opened Scenario

  const A: Path := "/a/b"
  const B: Path := "/b"
  const C: Path := "/a/b/c"
  const D: Path := "/a/b/c/d"

  const ROOT_A: Root := Root(A, 0x100, 1, [], false, false, false, false)
  const ROOT_B: Root := Root(B, 0x100, 1, [], false, false, false, false)

  const QUEUED_B: Root := ROOT_B.(queue := [Node(CREATED, C)])

  /** A directory `d` was created in `/a/b/c`: an event the roots' mask asks for. */
  const CREATED: Record := Record(2, 0x4000_0100, 0, 16, "d")

  const STRAY: Walker := Walker(1, false, Begin(D))

  lemma Strings()
    ensures Child(A, "c") == C && EventPath(C, "d") == D
    ensures !TmpTail(A) && !TmpTail(C) && !TmpTail(D) && !TmpTail("d")
    ensures A + "/" <= C && !(A + "/" <= A) && Under(D, A) && |B| <= |D|
    ensures A != B && A != C && A != "/" && B != "/" && WatchKey(A) == A && WatchKey(B) == B
  {
    assert C[0] != TMP[0] && D[2] != TMP[0];
  }

  lemma IsCreation()
    ensures !Ignored(CREATED) && Appears(CREATED.mask)
  {
  }

  // ---- `/a/b` is watched, down to `/a/b/c` -------------------------------

  const WATCH_A: map<Path, Watch> := map[A := Watch(1, A)]
  const WATCH_AC: map<Path, Watch> := map[A := Watch(1, A), C := Watch(2, C)]

  ghost function OnlyA(byPath: map<Path, Watch>, byWd: map<int, Watch>, phase: Phase): State {
    State(Tables(map[A := 0], [ROOT_A], byPath, byWd, 1), {}, Idle, map[0 := Walker(0, false, phase)], map[], map[])
  }

  const WALKED: Phase := Scan(Open(C, [], Open(A, [], Bottom)))

  ghost function WatchedA(): State {
    OnlyA(WATCH_AC, map[1 := Watch(1, A), 2 := Watch(2, C)], WALKED)
  }

  lemma CheckA()
    ensures Goes(INIT, Dispatcher(WatchCheck(A, 0x100, 1, false, [])), INIT.(disp := Admitted(A, 0x100, 1, false)))
  {
  }

  lemma InsertA()
    ensures Goes(INIT.(disp := Admitted(A, 0x100, 1, false)), Dispatcher(WatchInsert(true, 0)),
                 OnlyA(map[], map[], Begin(A)))
  {
  }

  lemma VisitA()
    ensures Goes(OnlyA(map[], map[], Begin(A)), WalkerOf(0, WalkBegin), OnlyA(map[], map[], Visit(A, Bottom)))
    ensures Goes(OnlyA(map[], map[], Visit(A, Bottom)), WalkerOf(0, WalkVisit(Hooked(1, ["c"]))),
                 OnlyA(WATCH_A, map[1 := Watch(1, A)], Scan(Open(A, ["c"], Bottom))))
  {
  }

  lemma VisitC()
    ensures Goes(OnlyA(WATCH_A, map[1 := Watch(1, A)], Scan(Open(A, ["c"], Bottom))), WalkerOf(0, WalkScan),
                 OnlyA(WATCH_A, map[1 := Watch(1, A)], Visit(C, Open(A, [], Bottom))))
    ensures Goes(OnlyA(WATCH_A, map[1 := Watch(1, A)], Visit(C, Open(A, [], Bottom))),
                 WalkerOf(0, WalkVisit(Hooked(2, []))), WatchedA())
  {
    Strings();
    assert ["c"][1..] == [];
  }

  lemma RunToWatchedA() returns (ss: seq<State>, acts: seq<Action>)
    ensures Reaches(ss, acts, WatchedA())
  {
    CheckA();
    InsertA();
    VisitA();
    VisitC();
    ss, acts := Go([INIT], [], Dispatcher(WatchCheck(A, 0x100, 1, false, [])),
                   INIT.(disp := Admitted(A, 0x100, 1, false)));
    ss, acts := Go(ss, acts, Dispatcher(WatchInsert(true, 0)), OnlyA(map[], map[], Begin(A)));
    ss, acts := Go(ss, acts, WalkerOf(0, WalkBegin), OnlyA(map[], map[], Visit(A, Bottom)));
    ss, acts := Go(ss, acts, WalkerOf(0, WalkVisit(Hooked(1, ["c"]))),
                   OnlyA(WATCH_A, map[1 := Watch(1, A)], Scan(Open(A, ["c"], Bottom))));
    ss, acts := Go(ss, acts, WalkerOf(0, WalkScan),
                   OnlyA(WATCH_A, map[1 := Watch(1, A)], Visit(C, Open(A, [], Bottom))));
    ss, acts := Go(ss, acts, WalkerOf(0, WalkVisit(Hooked(2, []))), WatchedA());
  }

  // ---- `/b` is watched too, and is taken for the root of `/a/b/c` --------

  const WDS_A: map<int, Watch> := map[1 := Watch(1, A)]
  const WDS_AC: map<int, Watch> := map[1 := Watch(1, A), 2 := Watch(2, C)]
  const WALKERS: map<Tid, Walker> := map[0 := Walker(0, false, WALKED), 1 := Walker(1, false, Begin(B))]

  ghost function Both(disp: Dispatch, walkers: map<Tid, Walker>): State {
    State(Tables(map[A := 0, B := 1], [ROOT_A, ROOT_B], WATCH_AC, WDS_AC, 2), {}, disp, walkers, map[], map[])
  }

  /** The event is in the queue of `/b`, and a walker of `/b` is on its way. */
  ghost function Strayed(): State {
    State(Tables(map[A := 0, B := 1], [ROOT_A, QUEUED_B], WATCH_AC, WDS_AC, 2),
          {}, Idle, WALKERS[2 := STRAY], map[], map[])
  }

  lemma CheckB()
    ensures Goes(WatchedA(), Dispatcher(WatchCheck(B, 0x100, 1, false, [A])),
                 WatchedA().(disp := Admitted(B, 0x100, 1, false)))
  {
    Strings();
    AmbiguousExample();
    assert WatchedA().t.roots.Keys == {A};
    RefusalIsClear(WatchedA().t, [A], B);
  }

  lemma InsertB()
    ensures Goes(WatchedA().(disp := Admitted(B, 0x100, 1, false)), Dispatcher(WatchInsert(true, 1)),
                 Both(Idle, WALKERS))
  {
  }

  lemma RootsOf(t: Tables)
    requires t.roots == map[A := 0, B := 1]
    ensures Enumerates([B, A], t.roots.Keys)
  {
    Strings();
  }

  lemma MisfiledLookup(t: Tables)
    requires t.roots == map[A := 0, B := 1] && t.objs == [ROOT_A, ROOT_B] && t.byWd == WDS_AC
    ensures t.Indexed() && Lookup(t, [B, A], CREATED) == Some(Target(C, 1))
  {
    Strings();
    AmbiguousExample();
  }

  lemma MisfileEvent()
    ensures Goes(Both(Idle, WALKERS), Dispatcher(EventLookup(CREATED, [B, A])), Both(Found(CREATED, C, 1), WALKERS))
  {
    IsCreation();
    MisfiledLookup(Both(Idle, WALKERS).t);
    RootsOf(Both(Idle, WALKERS).t);
  }

  lemma FollowEvent()
    ensures Goes(Both(Found(CREATED, C, 1), WALKERS), Dispatcher(EventAct(2)),
                 Both(Queueing(CREATED, C, 1), WALKERS[2 := STRAY]))
  {
    Strings();
    IsCreation();
  }

  lemma QueueEventAtB()
    ensures Goes(Both(Queueing(CREATED, C, 1), WALKERS[2 := STRAY]), Dispatcher(EventQueue), Strayed())
  {
    assert Bit(CREATED.mask, 8) && Bit(0x100, 8);
    CommonBitIntersects(CREATED.mask, 0x100, 8);
    assert [] + [Node(CREATED, C)] == [Node(CREATED, C)];
  }

  lemma RunToStray() returns (ss: seq<State>, acts: seq<Action>)
    ensures Reaches(ss, acts, Strayed())
  {
    CheckB();
    InsertB();
    MisfileEvent();
    FollowEvent();
    QueueEventAtB();
    ss, acts := RunToWatchedA();
    ss, acts := Go(ss, acts, Dispatcher(WatchCheck(B, 0x100, 1, false, [A])),
                   WatchedA().(disp := Admitted(B, 0x100, 1, false)));
    ss, acts := Go(ss, acts, Dispatcher(WatchInsert(true, 1)), Both(Idle, WALKERS));
    ss, acts := Go(ss, acts, Dispatcher(EventLookup(CREATED, [B, A])), Both(Found(CREATED, C, 1), WALKERS));
    ss, acts := Go(ss, acts, Dispatcher(EventAct(2)), Both(Queueing(CREATED, C, 1), WALKERS[2 := STRAY]));
    ss, acts := Go(ss, acts, Dispatcher(EventQueue), Strayed());
  }

  // ---- `/a/b` is unwatched -----------------------------------------------

  ghost function Leaving(freed: bool, byPath: map<Path, Watch>, byWd: map<int, Watch>, retired: set<int>,
                         d: Destroyer): State {
    State(Tables(map[A := 0, B := 1], [ROOT_A.(freed := freed, destroy := true), QUEUED_B], byPath, byWd, 2),
          retired, Idle, WALKERS[2 := STRAY], map[0 := d], map[])
  }

  ghost function Unwatched(byPath: map<Path, Watch>, byWd: map<int, Watch>, stray: Phase): State {
    State(Tables(map[B := 1], [ROOT_A.(freed := true, destroy := true), QUEUED_B], byPath, byWd, 1),
          {2}, Idle, WALKERS[2 := STRAY.(phase := stray)], map[], map[])
  }

  lemma BeginUnwatchA()
    ensures Goes(Strayed(), Dispatcher(Unwatch(A, 0)),
                 Leaving(false, WATCH_AC, WDS_AC, {}, Started(0)))
  {
  }

  lemma Snapshot()
    ensures Enumerates([C, A], WATCH_AC.Keys)
    ensures WATCH_AC - {C} == WATCH_A && WDS_AC - {2} == WDS_A
  {
  }

  lemma BeginSweep()
    ensures Goes(Leaving(false, WATCH_AC, WDS_AC, {}, Started(0)), DestroyerOf(0, DestroyBegin([C, A])),
                 Leaving(true, WATCH_AC, WDS_AC, {}, Sweeping(0, [C, A])))
  {
  }

  lemma FindC()
    ensures Goes(Leaving(true, WATCH_AC, WDS_AC, {}, Sweeping(0, [C, A])), DestroyerOf(0, DestroyKey),
                 Leaving(true, WATCH_AC, WDS_AC, {}, Holding(0, [A], C, 2, false)))
  {
  }

  lemma UnhookC()
    ensures Goes(Leaving(true, WATCH_AC, WDS_AC, {}, Holding(0, [A], C, 2, false)), DestroyerOf(0, DestroyUnhook),
                 Leaving(true, WATCH_AC, WDS_AC, {2}, Holding(0, [A], C, 2, true)))
  {
  }

  lemma RemoveC()
    ensures Goes(Leaving(true, WATCH_AC, WDS_AC, {2}, Holding(0, [A], C, 2, true)), DestroyerOf(0, DestroyRemove),
                 Leaving(true, WATCH_A, WDS_A, {2}, Sweeping(0, [A])))
  {
    Snapshot();
  }

  lemma EndUnwatchA()
    ensures Goes(Leaving(true, WATCH_A, WDS_A, {2}, Sweeping(0, [A])), DestroyerOf(0, DestroyKey),
                 Leaving(true, WATCH_A, WDS_A, {2}, Sweeping(0, [])))
    ensures Goes(Leaving(true, WATCH_A, WDS_A, {2}, Sweeping(0, [])), DestroyerOf(0, DestroyEnd),
                 Unwatched(map[], map[], Begin(D)))
  {
    Strings();
    assert [A][1..] == [] && WATCH_A - {A} == map[] && WDS_A - {1} == map[];
    assert map[A := 0, B := 1] - {A} == map[B := 1];
  }

  lemma RunToUnwatched() returns (ss: seq<State>, acts: seq<Action>)
    ensures Reaches(ss, acts, Unwatched(map[], map[], Begin(D)))
    ensures acts != [] && acts[|acts| - 1] == DestroyerOf(0, DestroyEnd)
  {
    BeginUnwatchA();
    BeginSweep();
    FindC();
    UnhookC();
    RemoveC();
    EndUnwatchA();
    ss, acts := RunToStray();
    ss, acts := Go(ss, acts, Dispatcher(Unwatch(A, 0)), Leaving(false, WATCH_AC, WDS_AC, {}, Started(0)));
    ss, acts := Go(ss, acts, DestroyerOf(0, DestroyBegin([C, A])),
                   Leaving(true, WATCH_AC, WDS_AC, {}, Sweeping(0, [C, A])));
    ss, acts := Go(ss, acts, DestroyerOf(0, DestroyKey),
                   Leaving(true, WATCH_AC, WDS_AC, {}, Holding(0, [A], C, 2, false)));
    ss, acts := Go(ss, acts, DestroyerOf(0, DestroyUnhook),
                   Leaving(true, WATCH_AC, WDS_AC, {2}, Holding(0, [A], C, 2, true)));
    ss, acts := Go(ss, acts, DestroyerOf(0, DestroyRemove), Leaving(true, WATCH_A, WDS_A, {2}, Sweeping(0, [A])));
    ss, acts := Go(ss, acts, DestroyerOf(0, DestroyKey), Leaving(true, WATCH_A, WDS_A, {2}, Sweeping(0, [])));
    ss, acts := Go(ss, acts, DestroyerOf(0, DestroyEnd), Unwatched(map[], map[], Begin(D)));
  }

  // ---- and the stray walker goes on --------------------------------------

  lemma StrayRegisters()
    ensures Goes(Unwatched(map[], map[], Begin(D)), WalkerOf(2, WalkBegin), Unwatched(map[], map[], Visit(D, Bottom)))
    ensures Goes(Unwatched(map[], map[], Visit(D, Bottom)), WalkerOf(2, WalkVisit(Hooked(3, []))),
                 Unwatched(map[D := Watch(3, D)], map[3 := Watch(3, D)], Scan(Open(D, [], Bottom))))
  {
    Strings();
  }

  /** The daemon can come to index a directory of an unwatched tree: `/a/b` has been
      unwatched to the end, no other root is above `/a/b/c/d`, and it is indexed. Its
      creation was queued for the clients of `/b`. */
  lemma UnwatchLeavesStray() returns (ss: seq<State>, acts: seq<Action>, end: nat)
    ensures Run(ss, acts) && ss[0] == INIT && end < |acts|
    ensures acts[end] == DestroyerOf(0, DestroyEnd) && A !in ss[end + 1].t.roots
    ensures D in ss[|acts|].t.byPath && Under(D, A) && forall r | r in ss[|acts|].t.roots :: !Under(D, r)
    ensures ss[|acts|].t.roots == map[B := 1] && |ss[|acts|].t.objs| == 2
    ensures ss[|acts|].t.objs[1].queue == [Node(CREATED, C)]
  {
    StrayRegisters();
    Strings();
    ss, acts := RunToUnwatched();
    end := |acts| - 1;
    ss, acts := Go(ss, acts, WalkerOf(2, WalkBegin), Unwatched(map[], map[], Visit(D, Bottom)));
    ss, acts := Go(ss, acts, WalkerOf(2, WalkVisit(Hooked(3, []))),
                   Unwatched(map[D := Watch(3, D)], map[3 := Watch(3, D)], Scan(Open(D, [], Bottom))));
    assert D[1] != B[1];
  }
}
