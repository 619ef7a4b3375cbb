/**
 Requests and replies: what a client's message does and how it is answered.
 */
module Requests {
  import opened CString
  import opened Tables
  import opened Daemon
  import opened Paths
  import opened Answers

  /** One reply was sent. */
  predicate OneMore(before: seq<Reply>, after: seq<Reply>) {
    |after| == |before| + 1 && after[..|before|] == before
  }

  /** The bytes of a message up to its first NUL: what `strlen` sees of it. */
  function BeforeNul(msg: seq<char>): (s: CStr)
    ensures s <= msg && (|s| < |msg| ==> msg[|s|] == NUL)
  {
    if msg == [] || msg[0] == NUL then "" else [msg[0]] + BeforeNul(msg[1..])
  }

  /** The quick look that a message must pass before it is parsed: it starts with
      an opening or ends with a closing brace (src/zeromq.c:152-158). */
  predicate LooksLikeJson(s: string) {
    s != "" && (s[0] == '{' || s[|s| - 1] == '}')
  }

  /** A message passes exactly if it starts with an opening brace or holds a closing one. */
  lemma PassesExactly(s: CStr)
    ensures LooksLikeJson(ThroughBrace(s)) <==> s != "" && (s[0] == '{' || '}' in s)
  {
    ThroughBraceFacts(s);
    if s != "" {
      assert ThroughBrace(s) != "" && ThroughBrace(s)[0] == s[0];
    }
  }

  class Server {
    const reg: Registry
    const maxEvents: int       // CONFIG->max_inotify_events
    var replies: seq<Reply>    // sent so far

    constructor (reg: Registry, maxEvents: int)
      ensures this.reg == reg && this.maxEvents == maxEvents && replies == []
    {
      this.reg, this.maxEvents, this.replies := reg, maxEvents, [];
    }

    method Send(r: Reply)
      modifies this`replies
      ensures replies == old(replies) + [r]
    {
      replies := replies + [r];
    }

    /** `request_get_path` (src/request.c:163-181). */
    method GetPath(req: Request) returns (path: Option<Path>)
      requires !BadPath(req)
      ensures path == PathOf(req)
    {
      var p := KeyStr(req, "path");
      if p.None? { return None; }
      var s := p.value;
      var buf := new char[|s| + 1](i requires 0 <= i <= |s| => if i < |s| then s[i] else NUL);
      assert buf[..][..|s|] == s;
      var inBounds := TrimPath(buf, s);
      var n := Strlen(buf, Normal(s));
      return Some(buf[..n]);
    }

    /** The registry as it is now. */
    ghost function Now(): Snapshot
      reads reg
    {
      Snapshot(reg.W(), reg.doomed)
    }

    /** One reply was sent, and this is it. */
    ghost predicate Sent(before: seq<Reply>, r: Reply)
      reads this
    {
      replies == before + [r]
    }

    // ---- calls -----------------------------------------------------------

    /** EVENT_watch. A missing path is formatted as `(null)` and so is answered
        like a relative one (src/zeromq.c:187-262). Before that answer the code logs
        a format without its argument; logging is not modelled. */
    method EventWatch(req: Request, opens: Path -> bool, order: seq<Path>) returns (r: Reply)
      requires reg.T().Indexed() && Enumerates(order, reg.roots.Keys) && !BadPath(req)
      modifies this`replies, reg
      ensures Sent(old(replies), r) && reg.T().Indexed()
      ensures WatchAnswer(req, maxEvents, opens, old(Now()), Now(), r)
      ensures r == Success <==>
                var p := PathOf(req);
                p.Some? && IsAbsolute(p.value) && opens(p.value) && Clear(old(reg.roots).Keys, p.value)
    {
      var path := GetPath(req);
      if path.None? || path.value == "" || path.value[0] != '/' { r := Failure(NotAbsolutePath); Send(r); return; }
      SpellingsPartAtSlash(KeyStr(req, "path").value);
      if path.value in reg.roots { r := Failure(RootAlreadyWatched); Send(r); return; }
      var mask := AsWord(OrDefault(req, "mask", DEFAULT_MASK));
      var rewatch := KeyInt(req, "rewatch") != -1;
      var max := OrDefault(req, "max_events", maxEvents);
      ghost var s := Now();
      var error := reg.WatchTree(path.value, mask, max, rewatch, opens(path.value), order);
      r := if error.Some? then Failure(error.value) else Success;
      WatchTreeAnswers(req, maxEvents, opens, order, s, Now(), r);
      Send(r);
    }

    /** EVENT_unwatch (src/zeromq.c:301-319). */
    method EventUnwatch(req: Request) returns (r: Reply)
      requires reg.T().Indexed() && !BadPath(req) && PathOf(req) != Some("")
      modifies this`replies, reg
      ensures Sent(old(replies), r) && reg.T().Indexed()
      ensures UnwatchAnswer(req, old(Now()), Now(), r)
    {
      var path := GetPath(req);
      if path.None? { r := Failure(JsonKeyNotFound); Send(r); return; }
      SpellingsPartAtSlash(KeyStr(req, "path").value);
      var error := reg.UnwatchTree(path.value);
      r := if error.Some? then Failure(error.value) else Success;
      Send(r);
    }

    /** EVENT_pause: set the flag, then flush (src/zeromq.c:441-474). */
    method EventPause(req: Request) returns (r: Reply)
      requires reg.T().Indexed() && !BadPath(req)
      requires HasRoot(req, reg.T()) ==> !reg.objs[reg.roots[PathOf(req).value]].freed
      modifies this`replies, reg
      ensures Sent(old(replies), r) && reg.T().Indexed()
      ensures PauseAnswer(req, old(Now()), Now(), r)
    {
      var path := GetPath(req);
      if path.None? { r := Failure(JsonKeyNotFound); Send(r); return; }
      if path.value !in reg.roots { r := Failure(RootNotWatched); Send(r); return; }
      var error := reg.SetPaused(path.value, true);
      if error.Some? { assert false; }
      var events := reg.GetEvents(path.value, 0);
      assert reg.objs[reg.roots[path.value]].queue == [];
      r := Success;
      Send(r);
    }

    /** EVENT_unpause (src/zeromq.c:476-504). */
    method EventUnpause(req: Request) returns (r: Reply)
      requires reg.T().Indexed() && !BadPath(req)
      modifies this`replies, reg
      ensures Sent(old(replies), r) && reg.T().Indexed()
      ensures UnpauseAnswer(req, old(Now()), Now(), r)
    {
      var path := GetPath(req);
      if path.None? { r := Failure(JsonKeyNotFound); Send(r); return; }
      if path.value !in reg.roots { r := Failure(RootNotWatched); Send(r); return; }
      var error := reg.SetPaused(path.value, false);
      if error.Some? { assert false; }
      r := Success;
      Send(r);
    }

    /** EVENT_get_events (src/zeromq.c:506-565). */
    method EventGetEvents(req: Request) returns (r: Reply)
      requires reg.T().Indexed() && !BadPath(req)
      requires HasRoot(req, reg.T()) && Count(req).Some? ==> !reg.objs[reg.roots[PathOf(req).value]].freed
      modifies this`replies, reg
      ensures Sent(old(replies), r) && reg.T().Indexed()
      ensures GetEventsAnswer(req, old(Now()), Now(), r)
    {
      var path := GetPath(req);
      if path.None? { r := Failure(JsonKeyNotFound); Send(r); return; }
      if path.value !in reg.roots { r := Failure(RootNotWatched); Send(r); return; }
      var count := Count(req);
      if count.None? { r := Failure(InvalidEventCount); Send(r); return; }
      var events := reg.GetEvents(path.value, count.value);
      r := Events(events);
      Send(r);
    }

    /** EVENT_get_queue_size (src/zeromq.c:361-409). Without a path the code also
        unlocks a mutex it does not hold; the request layer's mutex is not modelled. */
    method EventGetQueueSize(req: Request) returns (r: Reply)
      requires reg.T().Indexed() && !BadPath(req)
      modifies this`replies
      ensures Sent(old(replies), r) && QueueSizeAnswer(req, Now(), Now(), r)
    {
      var path := GetPath(req);
      if path.None? { r := Failure(JsonKeyNotFound); Send(r); return; }
      if path.value !in reg.roots { r := Failure(RootNotWatched); Send(r); return; }
      var root := reg.objs[reg.roots[path.value]];
      r := if root.destroy then QueueSize(0) else QueueSize(|root.queue|);
      Send(r);
    }

    /** EVENT_get_roots: the list read back up to its terminator is the root
        table, as long as no root is called `EOL` (src/zeromq.c:570-604). */
    method EventGetRoots(order: seq<Path>) returns (r: Reply)
      requires Enumerates(order, reg.roots.Keys) && reg.numRoots == |reg.roots|
      modifies this`replies
      ensures Sent(old(replies), r) && RootsAnswer(Now(), Now(), r)
    {
      EnumeratesSize(order, reg.roots.Keys);
      assert forall k :: k in order <==> k in reg.roots.Keys;
      if reg.numRoots < 1 { r := Roots([]); Send(r); return; }
      var list := reg.GetRoots(order);
      var paths := ReadRoots(list, order);
      r := Roots(paths);
      Send(r);
    }

    /** EVENT_subscribe, a stub that answers a constant (src/zeromq.c:264-299). */
    method EventSubscribe(req: Request) returns (r: Reply)
      requires !BadPath(req)
      modifies this`replies
      ensures Sent(old(replies), r) && SubscribeAnswer(req, Now(), Now(), r)
    {
      var path := GetPath(req);
      if path.None? { r := Failure(JsonKeyNotFound); Send(r); return; }
      if path.value !in reg.roots { r := Failure(RootNotWatched); Send(r); return; }
      r := Subscription(1234);
      Send(r);
    }

    // ---- dispatch --------------------------------------------------------

    /** `zmq_dispatch_event`: one reply whatever the call, and the effect of that call
        (src/zeromq.c:606-639). */
    method Dispatch(req: Request, opens: Path -> bool, order: seq<Path>) returns (r: Reply)
      requires reg.T().Indexed() && reg.numRoots == |reg.roots| && Enumerates(order, reg.roots.Keys)
      requires !ReadsAstray(reg.roots, reg.objs, req)
      modifies this`replies, reg
      ensures Sent(old(replies), r) && reg.T().Indexed()
      ensures Answered(req, maxEvents, opens, old(Now()), Now(), r)
    {
      match req.call
      case "ping" => r := Pong; Send(r);
      case "status" => r := Status(|reg.byPath|); Send(r);
      case "watch" => r := EventWatch(req, opens, order);
      case "pause" => r := EventPause(req);
      case "unpause" => r := EventUnpause(req);
      case "subscribe" => r := EventSubscribe(req);
      case "unwatch" => r := EventUnwatch(req);
      case "get_events" => r := EventGetEvents(req);
      case "get_queue_size" => r := EventGetQueueSize(req);
      case "get_roots" => r := EventGetRoots(order);
      case _ => r := Failure(BadCall); Send(r);
    }

    /** `zmq_handle_event`: one reply per message, unless the message is empty or
        starts with a NUL, which gets none (src/zeromq.c:78-181). Nothing is promised
        once a handler reads astray. */
    method HandleMessage(received: bool, msg: seq<char>, parse: string -> Option<Request>, opens: Path -> bool,
                         order: seq<Path>) returns (astray: bool)
      requires reg.T().Indexed() && reg.numRoots == |reg.roots| && Enumerates(order, reg.roots.Keys)
      modifies this`replies, reg
      ensures var json := ThroughBrace(BeforeNul(msg));
              && (astray <==> received && LooksLikeJson(json) && parse(json).Some?
                              && ReadsAstray(old(reg.roots), old(reg.objs), parse(json).value))
              && (!received ==> Sent(old(replies), Failure(ZeromqReconnect)) && Now() == old(Now()))
              && (received && BeforeNul(msg) == "" ==> replies == old(replies) && Now() == old(Now()))
              && (received && BeforeNul(msg) != "" && !LooksLikeJson(json) ==>
                    Sent(old(replies), Failure(JsonInvalid)) && Now() == old(Now()))
              && (received && LooksLikeJson(json) && parse(json).None? ==>
                    Sent(old(replies), Failure(JsonParse)) && Now() == old(Now()))
              && (received && LooksLikeJson(json) && parse(json).Some? && !astray ==>
                    exists r :: Sent(old(replies), r)
                                && Answered(parse(json).value, maxEvents, opens, old(Now()), Now(), r))
      ensures !astray && !(received && BeforeNul(msg) == "") ==> OneMore(old(replies), replies)
    {
      if !received { Send(Failure(ZeromqReconnect)); return false; }
      if |msg| == 0 { return false; }
      var empty, json := ReadMessage(msg);
      if empty { return false; }
      if |json| < 1 || (json[0] != '{' && json[|json| - 1] != '}') { Send(Failure(JsonInvalid)); return false; }
      var req := parse(json);
      if req.None? { Send(Failure(JsonParse)); return false; }
      if ReadsAstray(reg.roots, reg.objs, req.value) { return true; }
      var r := Dispatch(req.value, opens, order);
      return false;
    }
  }

  /** The message as a C string, cut after its first closing brace (src/zeromq.c:113-150). */
  method ReadMessage(msg: seq<char>) returns (empty: bool, text: string)
    ensures empty <==> BeforeNul(msg) == ""
    ensures !empty ==> text == ThroughBrace(BeforeNul(msg))
  {
    var json := new char[|msg| + 1](i requires 0 <= i <= |msg| => if i < |msg| then msg[i] else NUL);
    ghost var s := BeforeNul(msg);
    assert json[..][..|s|] == s;
    var len := Strlen(json, s);
    if len == 0 { return true, ""; }
    Truncate(json, s);
    len := Strlen(json, ThroughBrace(s));
    return false, json[..len];
  }
}
