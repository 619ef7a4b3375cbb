/**
 Requests as the handlers read them, and what each call answers and does, told by the
 fields of the tables alone.
 */
module Answers {
  import opened CString
  import opened Tables
  import opened Daemon
  import opened Owners
  import opened Paths

  // ---- requests ----------------------------------------------------------

  datatype Json = Str(s: CStr) | Int(i: int) | Other

  /** A parsed request: its call and the other members of the JSON object. */
  datatype Request = Request(call: string, fields: map<string, Json>)

  datatype Reply =
    | Failure(error: Error) | Success | Pong | Status(watches: nat) | Subscription(sid: int)
    | QueueSize(size: nat) | Events(events: seq<Event>) | Roots(paths: seq<Path>)

  /** `request_get_key_int`: -1 stands for a missing member. */
  function KeyInt(req: Request, key: string): int {
    if key in req.fields && req.fields[key].Int? then req.fields[key].i else -1
  }

  function KeyStr(req: Request, key: string): Option<CStr> {
    if key in req.fields && req.fields[key].Str? then Some(req.fields[key].s) else None
  }

  /** `request_get_max_events` and `request_get_mask`: 0 stands for the default. */
  function OrDefault(req: Request, key: string, default: int): (v: int)
    ensures v == if KeyInt(req, key) in {-1, 0} then default else KeyInt(req, key)
  {
    var given := if KeyInt(req, key) == -1 then 0 else KeyInt(req, key);
    if given == 0 then default else given
  }

  /** `request_get_count`: a missing count, and so a count of -1, means one
      event, 0 means all of them and other negative counts are refused. */
  function Count(req: Request): (n: Option<nat>)
    ensures n.None? <==> KeyInt(req, "count") < -1
    ensures n.Some? ==> n.value == if KeyInt(req, "count") == -1 then 1 else KeyInt(req, "count")
  {
    var count := KeyInt(req, "count");
    if count == -1 then Some(1) else if count < 0 then None else Some(count)
  }

  /** The numbers that a request might as well have left out. */
  lemma LikeMissing(req: Request, key: string, i: int, default: int)
    ensures var given, missing := req.(fields := req.fields[key := Int(i)]), req.(fields := req.fields - {key});
            && KeyInt(given, key) == i && (KeyInt(given, key) == KeyInt(missing, key) <==> i == -1)
            && (OrDefault(given, key, default) == OrDefault(missing, key, default) <==> i in {-1, 0, default})
            && (key == "count" ==> (Count(given) == Count(missing) <==> i in {-1, 1}))
  {
  }

  /** `request_get_path` on this request reads in front of its buffer. */
  predicate BadPath(req: Request) {
    var p := KeyStr(req, "path");
    p.Some? && |p.value| >= 2 && AllSlashes(p.value)
  }

  /** The path of a request in its normal spelling. */
  function PathOf(req: Request): Option<Path> {
    var p := KeyStr(req, "path");
    if p.Some? then Some(Normal(p.value)) else None
  }

  /** Whatever its trailing slashes, a request's path is the path without them, except
      that `/` stays; a request without a string there has none. */
  lemma PathSpelling(req: Request, p: CStr, n: nat)
    requires "path" in req.fields && req.fields["path"].Str?
    ensures p != "" && p[|p| - 1] != '/' && req.fields["path"].s == p + Slashes(n) ==> PathOf(req) == Some(p)
    ensures req.fields["path"].s in {"", "/"} ==> PathOf(req) == Some(req.fields["path"].s)
    ensures PathOf(req.(fields := req.fields - {"path"})) == None
    ensures forall i :: PathOf(req.(fields := req.fields["path" := Int(i)])) == None
  {
    if p != "" && p[|p| - 1] != '/' { SpellingAgreement(p, n); }
  }

  /** The calls that take a path. */
  const PATH_CALLS: set<string> :=
    {"watch", "pause", "unpause", "subscribe", "unwatch", "get_events", "get_queue_size"}

  /** Does `inotify_dequeue` read a queue that a destroyer has released? */
  predicate TouchesFreedQueue(roots: map<Path, RootId>, objs: seq<Root>, req: Request)
    requires forall p | p in roots :: roots[p] < |objs|
  {
    && (req.call == "pause" || (req.call == "get_events" && Count(req).Some?))
    && PathOf(req).Some? && PathOf(req).value in roots
    && objs[roots[PathOf(req).value]].freed
  }

  /** The requests that make the handlers read memory that is not theirs: the path
      trimming runs off its buffer, unwatching the empty path does, or a released
      queue is read. */
  predicate ReadsAstray(roots: map<Path, RootId>, objs: seq<Root>, req: Request)
    requires forall p | p in roots :: roots[p] < |objs|
  {
    || (req.call in PATH_CALLS && BadPath(req))
    || (req.call == "unwatch" && PathOf(req) == Some(""))
    || TouchesFreedQueue(roots, objs, req)
  }

  /** The mask used when a request gives none (src/inotify.h:43-52). */
  const DEFAULT_MASK: int := 0x0200_23CC

  // ---- answers -----------------------------------------------------------

  /** The whole registry: tables, walks started, descriptors given back, destroyers started. */
  datatype Snapshot = Snapshot(w: World, doomed: seq<RootId>)

  /** Only Root `id` is rewritten. */
  ghost predicate OnlyRoot(s: Snapshot, s': Snapshot, id: RootId, r: Root) {
    id < |s.w.t.objs| && s' == s.(w := s.w.(t := s.w.t.(objs := s.w.t.objs[id := r])))
  }

  /** A new root: its fields, its table entry, the counter and its first walker. */
  ghost predicate Inserted(s: Snapshot, s': Snapshot, p: Path, mask: Word, maxEvents: int, rewatch: bool) {
    var t, t' := s.w.t, s'.w.t;
    && |t'.objs| == |t.objs| + 1 && t.objs <= t'.objs
    && (var r := t'.objs[|t.objs|];
        && r.path == p && r.mask == mask && r.maxEvents == maxEvents && (r.rewatch <==> rewatch)
        && r.queue == [] && !r.freed && !r.destroy && !r.pause)
    && t'.roots == t.roots[p := |t.objs|] && t'.numRoots == t.numRoots + 1
    && t'.byPath == t.byPath && t'.byWd == t.byWd
    && s'.w.walks == s.w.walks + [Walk(p, |t.objs|, false)]
    && s'.w.retired == s.w.retired && s'.doomed == s.doomed
  }

  ghost predicate WatchAnswer(req: Request, maxEvents: int, opens: Path -> bool, s: Snapshot, s': Snapshot, r: Reply) {
    var p, roots := PathOf(req), s.w.t.roots;
    if p.None? || p.value == "" || p.value[0] != '/' then r == Failure(NotAbsolutePath) && s' == s
    else if p.value in roots then r == Failure(RootAlreadyWatched) && s' == s
    else if "/" in roots || (exists k :: k in roots && Occurs(p.value, k + "/")) then
      r == Failure(ChildOfRoot) && s' == s
    else if exists k :: k in roots && Occurs(k, p.value + "/") then r == Failure(ParentOfRoot) && s' == s
    else if !opens(p.value) then r == Failure(RootDoesNotExist) && s' == s
    else
      r == Success
      && Inserted(s, s', p.value, AsWord(OrDefault(req, "mask", 0x0200_23CC)), OrDefault(req, "max_events", maxEvents),
                  KeyInt(req, "rewatch") != -1)
  }

  /** What `inotify_watch_tree` does is the answer's effect. */
  lemma WatchTreeAnswers(req: Request, maxEvents: int, opens: Path -> bool, order: seq<Path>,
                         s: Snapshot, s': Snapshot, r: Reply)
    requires s.w.t.Indexed() && Enumerates(order, s.w.t.roots.Keys) && s'.doomed == s.doomed
    requires PathOf(req).Some? && IsAbsolute(PathOf(req).value)
    requires WatchKey(PathOf(req).value) == PathOf(req).value && PathOf(req).value !in s.w.t.roots
    requires var p := PathOf(req).value;
             var error := WatchOutcome(s.w.t, order, p, opens(p));
             if error.Some? then r == Failure(error.value) && s' == s
             else
               && r == Success
               && s'.w == World(Insert(s.w.t, p, AsWord(OrDefault(req, "mask", DEFAULT_MASK)),
                                       OrDefault(req, "max_events", maxEvents), KeyInt(req, "rewatch") != -1),
                                s.w.walks + [Walk(p, |s.w.t.objs|, false)], s.w.retired)
    ensures WatchAnswer(req, maxEvents, opens, s, s', r)
    ensures r == Success <==> opens(PathOf(req).value) && Clear(s.w.t.roots.Keys, PathOf(req).value)
  {
    RefusalOfNew(s.w.t, order, PathOf(req).value);
  }

  ghost predicate UnwatchAnswer(req: Request, s: Snapshot, s': Snapshot, r: Reply)
    requires s.w.t.Indexed()
  {
    if PathOf(req).None? then r == Failure(JsonKeyNotFound) && s' == s
    else
      var p := if PathOf(req).value == "/" then "" else PathOf(req).value;
      if p !in s.w.t.roots then r == Failure(RootNotWatched) && s' == s
      else
        var id := s.w.t.roots[p];
        if s.w.t.objs[id].destroy then r == Failure(RootBeingDestroyed) && s' == s
        else
          && r == Success && s'.doomed == s.doomed + [id]
          && OnlyRoot(s, s'.(doomed := s.doomed), id, s.w.t.objs[id].(destroy := true))
  }

  /** The answer of a call that takes the path of a watched root, otherwise. */
  ghost predicate NoRoot(req: Request, s: Snapshot, s': Snapshot, r: Reply) {
    && s' == s
    && r == Failure(if PathOf(req).None? then JsonKeyNotFound else RootNotWatched)
  }

  predicate HasRoot(req: Request, t: Tables) {
    PathOf(req).Some? && PathOf(req).value in t.roots
  }

  ghost predicate PauseAnswer(req: Request, s: Snapshot, s': Snapshot, r: Reply)
    requires s.w.t.Indexed()
  {
    if !HasRoot(req, s.w.t) then NoRoot(req, s, s', r)
    else
      var id := s.w.t.roots[PathOf(req).value];
      r == Success && OnlyRoot(s, s', id, s.w.t.objs[id].(pause := true, queue := []))
  }

  ghost predicate UnpauseAnswer(req: Request, s: Snapshot, s': Snapshot, r: Reply)
    requires s.w.t.Indexed()
  {
    if !HasRoot(req, s.w.t) then NoRoot(req, s, s', r)
    else
      var id := s.w.t.roots[PathOf(req).value];
      r == Success && OnlyRoot(s, s', id, s.w.t.objs[id].(pause := false))
  }

  ghost predicate GetEventsAnswer(req: Request, s: Snapshot, s': Snapshot, r: Reply)
    requires s.w.t.Indexed()
  {
    if !HasRoot(req, s.w.t) then NoRoot(req, s, s', r)
    else if KeyInt(req, "count") < -1 then r == Failure(InvalidEventCount) && s' == s
    else
      var id := s.w.t.roots[PathOf(req).value];
      var q := s.w.t.objs[id].queue;
      var n := if KeyInt(req, "count") == -1 then 1 else KeyInt(req, "count");
      var m := if n == 0 || n > |q| then |q| else n;
      r == Events(q[..m]) && OnlyRoot(s, s', id, s.w.t.objs[id].(queue := q[m..]))
  }

  ghost predicate QueueSizeAnswer(req: Request, s: Snapshot, s': Snapshot, r: Reply)
    requires s.w.t.Indexed()
  {
    if !HasRoot(req, s.w.t) then NoRoot(req, s, s', r)
    else
      var root := s.w.t.objs[s.w.t.roots[PathOf(req).value]];
      s' == s && r == QueueSize(if root.destroy then 0 else |root.queue|)
  }

  ghost predicate SubscribeAnswer(req: Request, s: Snapshot, s': Snapshot, r: Reply) {
    if !HasRoot(req, s.w.t) then NoRoot(req, s, s', r) else s' == s && r == Subscription(1234)
  }

  /** The watched paths, each once, unless one of them is the list's terminator. */
  ghost predicate RootsAnswer(s: Snapshot, s': Snapshot, r: Reply) {
    s' == s && r.Roots? && (Enumerates(r.paths, s.w.t.roots.Keys) <==> "EOL" !in s.w.t.roots)
  }

  /** What a request is answered and what it does, for every call. */
  ghost predicate Answered(req: Request, maxEvents: int, opens: Path -> bool, s: Snapshot, s': Snapshot, r: Reply)
    requires s.w.t.Indexed()
  {
    match req.call
    case "ping" => r == Pong && s' == s
    case "status" => r == Status(|s.w.t.byPath|) && s' == s
    case "watch" => WatchAnswer(req, maxEvents, opens, s, s', r)
    case "pause" => PauseAnswer(req, s, s', r)
    case "unpause" => UnpauseAnswer(req, s, s', r)
    case "subscribe" => SubscribeAnswer(req, s, s', r)
    case "unwatch" => UnwatchAnswer(req, s, s', r)
    case "get_events" => GetEventsAnswer(req, s, s', r)
    case "get_queue_size" => QueueSizeAnswer(req, s, s', r)
    case "get_roots" => RootsAnswer(s, s', r)
    case _ => r == Failure(BadCall) && s' == s
  }
}
