/**
 C strings cut short in place: the trailing slashes of a request's path and the
 junk after a request's first closing brace.
 */
module Paths {
  import opened CString
  import opened Tables

  const NUL: char := 0 as char

  /** A C string: no terminator inside. */
  type CStr = s: string | NUL !in s

  /** Buffer contents that read as the C string `s`. */
  ghost predicate Reads(b: seq<char>, s: string) {
    |s| < |b| && b[..|s|] == s && b[|s|] == NUL && NUL !in s
  }

  /** `strlen`. */
  method Strlen(buf: array<char>, ghost s: string) returns (n: nat)
    requires Reads(buf[..], s)
    ensures n == |s|
  {
    assert forall k | 0 <= k < |s| :: buf[..][..|s|][k] == s[k] && s[k] in s;
    n := 0;
    while buf[n] != NUL
      invariant n <= |s|
      invariant n < |s| ==> buf[n] == s[n] && s[n] != NUL
      decreases |s| - n
    {
      n := n + 1;
    }
  }

  // ---- trailing slashes --------------------------------------------------

  predicate AllSlashes(s: string) {
    forall c | c in s :: c == '/'
  }

  function Slashes(n: nat): string {
    if n == 0 then "" else Slashes(n - 1) + "/"
  }

  /** `s` without its trailing slashes. */
  function Strip(s: string): (r: string)
    ensures r <= s && (r == "" || r[|r| - 1] != '/')
    ensures forall k | |r| <= k < |s| :: s[k] == '/'
  {
    if s != "" && s[|s| - 1] == '/' then Strip(s[..|s| - 1]) else s
  }

  /** What the trimming is for: one spelling per directory, `/` kept. */
  function Normal(s: string): string {
    if s == "/" then s else Strip(s)
  }

  /** The trimming of `request_get_path` (src/request.c:173-178). It fails, by
      reading in front of the buffer, exactly for two or more slashes and
      nothing else; otherwise the buffer then reads as the normal spelling. */
  method TrimPath(buf: array<char>, ghost s: string) returns (inBounds: bool)
    requires Reads(buf[..], s)
    modifies buf
    ensures inBounds <==> !(|s| >= 2 && AllSlashes(s))
    ensures inBounds ==> Reads(buf[..], Normal(s))
  {
    var n := Strlen(buf, s);
    if n == 0 || (n == 1 && buf[0] == '/') {
      assert s == "" || s == [buf[..][0]];
      return true;
    }
    var i := n - 1;
    ghost var cut := s;
    while true
      invariant -1 <= i < n && i == |cut| - 1
      invariant cut <= s && Reads(buf[..], cut) && Strip(cut) == Strip(s)
      invariant forall k | |cut| <= k < |s| :: s[k] == '/'
      decreases i
    {
      if i < 0 { return false; }
      assert buf[i] == buf[..][..|cut|][i] == cut[i];
      if buf[i] != '/' { break; }
      buf[i] := NUL;
      cut := cut[..i];
      assert buf[..][..i] == cut;
      i := i - 1;
    }
    assert cut[i] in s;
    return true;
  }

  lemma {:induction false} StripSlashes(p: string, n: nat)
    requires p == "" || p[|p| - 1] != '/'
    ensures Strip(p + Slashes(n)) == p
  {
    if n == 0 {
      assert p + Slashes(0) == p;
    } else {
      var s := p + Slashes(n);
      assert s[..|s| - 1] == p + Slashes(n - 1);
      StripSlashes(p, n - 1);
    }
  }

  /** Spelling agreement. A path means the same root however many slashes it is
      spelled with, and watch and unwatch, which drop a slash of their own, then
      use that same key. */
  lemma SpellingAgreement(p: string, n: nat)
    requires p != "" && p[|p| - 1] != '/'
    ensures Normal(p + Slashes(n)) == p && Normal(p) == p
    ensures WatchKey(p) == p && UnwatchKey(p) == p && WatchKey(p + "/") == p && UnwatchKey(p + "/") == p
  {
    StripSlashes(p, n);
    assert (p + Slashes(n))[0] == p[0];
  }

  /** Among the normal spellings watch and unwatch part exactly at `/`: it can be
      watched, but unwatching it looks for the empty path. */
  lemma SpellingsPartAtSlash(s: string)
    ensures Normal(Normal(s)) == Normal(s)
    ensures WatchKey(Normal(s)) == Normal(s)
    ensures UnwatchKey(Normal(s)) == Normal(s) <==> s != "/"
    ensures UnwatchKey("/") == ""
  {
  }

  // ---- junk after a request ----------------------------------------------

  /** The text through the first closing brace, or all of it. */
  function ThroughBrace(s: string): string {
    if s == "" then "" else if s[0] == '}' then "}" else [s[0]] + ThroughBrace(s[1..])
  }

  /** Some prefix of `s`, ending at the first brace if there is one. */
  lemma {:induction false} ThroughBraceFacts(s: string)
    ensures var r := ThroughBrace(s);
            && r <= s
            && ('}' !in s ==> r == s)
            && ('}' in s ==> r != "" && r[|r| - 1] == '}' && '}' !in r[..|r| - 1])
  {
    if s != "" && s[0] != '}' {
      ThroughBraceFacts(s[1..]);
      var r, r' := ThroughBrace(s), ThroughBrace(s[1..]);
      if '}' in s {
        assert '}' in s[1..] && r[..|r| - 1] == [s[0]] + r'[..|r'| - 1];
      }
    }
  }

  lemma FirstBrace(s: string, k: nat)
    requires k < |s| && s[k] == '}' && '}' !in s[..k]
    ensures ThroughBrace(s) == s[..k + 1]
    decreases |s|
  {
    if k > 0 {
      assert s[..k][0] == s[0] && s[1..][..k - 1] == s[..k][1..];
      FirstBrace(s[1..], k - 1);
    }
  }

  lemma NoBrace(s: string)
    requires '}' !in s
    ensures ThroughBrace(s) == s
  {
  }

  /** The truncation loop of `zmq_handle_event` (src/zeromq.c:145-150): its bound
      is the length of the very string that it shortens. */
  method Truncate(json: array<char>, ghost s: string)
    requires Reads(json[..], s)
    modifies json
    ensures Reads(json[..], ThroughBrace(s))
  {
    var i, nil := 0, false;
    ghost var now, k := s, 0;
    var len := Strlen(json, now);
    while i < len
      invariant len == |now| && Reads(json[..], now) && now <= s && i <= |s|
      invariant !nil ==> now == s && '}' !in s[..i]
      invariant nil ==> k < i && s[k] == '}' && '}' !in s[..k] && now == if i == k + 1 then s else s[..k + 1]
      decreases |s| - i
    {
      if nil {
        json[i] := NUL;
        now := s[..i];
        assert json[..][..i] == now;
      } else {
        assert json[i] == json[..][..|s|][i] == s[i];
        if json[i] == '}' { nil, k := true, i; }
      }
      i := i + 1;
      len := Strlen(json, now);
    }
    if nil { FirstBrace(s, k); } else { assert s[..i] == s; NoBrace(s); }
  }
}
