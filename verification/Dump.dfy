/**
 Roots survive a restart: the dump file written when roots change and the loop
 that watches them again at start-up.
 */
module Dump {
  import opened CString
  import opened Tables
  import opened Wire
  import opened Threads
  import opened Safety
  import opened Daemon

  // ---- numbers as text ---------------------------------------------------

  function Digit(d: nat): char
    requires d < 10
  {
    ('0' as int + d) as char
  }

  predicate IsDigit(c: char) {
    '0' <= c <= '9'
  }

  function Digits(n: nat): (s: string)
    ensures s != "" && forall c | c in s :: IsDigit(c)
  {
    if n < 10 then [Digit(n)] else Digits(n / 10) + [Digit(n % 10)]
  }

  /** `printf("%d")`. */
  function Decimal(x: int): string {
    if x < 0 then "-" + Digits(-x) else Digits(x)
  }

  /** The number that the leading digits of `s` append to `acc`. */
  function ReadDigits(s: string, acc: nat): nat {
    if s == "" || !IsDigit(s[0]) then acc else ReadDigits(s[1..], 10 * acc + (s[0] as int - '0' as int))
  }

  /** `atoi`: blanks, an optional sign, digits; anything else reads as 0. */
  function Atoi(s: string): int {
    if s == "" then 0
    else if s[0] == ' ' then Atoi(s[1..])
    else if s[0] == '-' then 0 - ReadDigits(s[1..], 0)
    else if s[0] == '+' then ReadDigits(s[1..], 0)
    else ReadDigits(s, 0)
  }

  lemma {:induction false} ReadDigitsAppend(a: string, b: string, acc: nat)
    requires forall c | c in a :: IsDigit(c)
    ensures ReadDigits(a + b, acc) == ReadDigits(b, ReadDigits(a, acc))
    decreases |a|
  {
    if a == "" {
      assert a + b == b;
    } else {
      assert a[0] in a && (a + b)[1..] == a[1..] + b;
      ReadDigitsAppend(a[1..], b, 10 * acc + (a[0] as int - '0' as int));
    }
  }

  lemma {:induction false} ReadDigitsOf(n: nat)
    ensures ReadDigits(Digits(n), 0) == n
  {
    if n >= 10 {
      ReadDigitsOf(n / 10);
      ReadDigitsAppend(Digits(n / 10), [Digit(n % 10)], 0);
    }
  }

  /** Numbers read back as they were printed. */
  lemma AtoiDecimal(x: int)
    ensures Atoi(Decimal(x)) == x
  {
    if x < 0 {
      ReadDigitsOf(-x);
      assert Decimal(x)[1..] == Digits(-x);
    } else {
      ReadDigitsOf(x);
      assert Digits(x)[0] in Digits(x);
    }
  }

  /** Blanks in front do not matter, a sign does, and what is no number reads as 0. */
  lemma AtoiForms(d: string)
    requires d != "" && forall c | c in d :: IsDigit(c)
    ensures Atoi(" " + d) == Atoi(d) && Atoi("+" + d) == Atoi(d) && Atoi("-" + d) == -Atoi(d)
    ensures Atoi(d) >= 0 && Atoi("") == 0 && Atoi("x" + d) == 0
  {
    assert d[0] in d;
    assert (" " + d)[1..] == d && ("+" + d)[1..] == d && ("-" + d)[1..] == d;
  }

  // ---- lines and fields --------------------------------------------------

  /** The size of the buffer lines are read into (src/inotify.c:150). */
  const LINE_MAX: nat := 1024

  /** Where `c` first occurs in `s`, or the length of `s`. */
  function IndexOf(s: string, c: char): (i: nat)
    ensures i <= |s| && (forall j | 0 <= j < i :: s[j] != c) && (i < |s| ==> s[i] == c)
  {
    if s == "" || s[0] == c then 0 else 1 + IndexOf(s[1..], c)
  }

  /** `fgets`: the next line with its newline, cut at the size of the buffer. */
  function Fgets(text: string): (r: (string, string))
    requires text != ""
    ensures text == r.0 + r.1 && r.0 != ""
  {
    var eol := IndexOf(text, '\n');
    var n := if eol < |text| then eol + 1 else eol;
    var m := if n < LINE_MAX then n else LINE_MAX - 1;
    (text[..m], text[m..])
  }

  /** One `strtok` call with delimiter `,`: the token and what is left. */
  function Token(s: string): (r: Option<(string, string)>)
    ensures r.Some? ==> r.value.0 != "" && ',' !in r.value.0 && |r.value.1| < |s|
  {
    if s == "" then None
    else if s[0] == ',' then Token(s[1..])
    else
      var i := IndexOf(s, ',');
      assert forall j | 0 <= j < i :: s[..i][j] != ',';
      Some((s[..i], if i < |s| then s[i + 1..] else ""))
  }

  /** What the restore loop makes of a line: a missing field is passed to
      `atoi` as a null pointer, a zero field is reported and skipped. */
  datatype Parsed = Crash | Invalid | Entry(path: Path, mask: int, maxEvents: int)

  function ParseLine(line: string): Parsed
    requires line != ""
  {
    var s := if line[|line| - 1] == '\n' then line[..|line| - 1] else line;
    var path := Token(s);
    if path.None? then Crash else
    var mask := Token(path.value.1);
    if mask.None? then Crash else
    var max := Token(mask.value.1);
    if max.None? then Crash
    else if Atoi(mask.value.0) == 0 || Atoi(max.value.0) == 0 then Invalid
    else Entry(path.value.0, Atoi(mask.value.0), Atoi(max.value.0))
  }

  /** `fprintf(fp, "%s,%d,%d\n", ...)`: the unsigned mask is printed as signed. */
  function Line(r: Root): string {
    r.path + "," + Decimal(Signed(r.mask)) + "," + Decimal(r.maxEvents) + "\n"
  }

  function DumpText(values: seq<Root>): string {
    if values == [] then ""
    else (if values[0].rewatch then Line(values[0]) else "") + DumpText(values[1..])
  }

  /** `values` are the Roots of the table in some iteration order. */
  ghost predicate Values(t: Tables, values: seq<Root>)
    requires t.Indexed()
  {
    && (forall v | v in values :: v.path in t.roots && v == t.objs[t.roots[v.path]])
    && (forall p | p in t.roots :: t.objs[t.roots[p]] in values)
    && (forall i, j | 0 <= i < j < |values| :: values[i].path != values[j].path)
  }

  /** `inotify_dump_roots` (src/inotify.c:697-729). */
  method DumpRoots(reg: Registry, values: seq<Root>) returns (text: string)
    requires reg.T().Indexed() && Values(reg.T(), values)
    ensures text == DumpText(values)
  {
    text := PrintRoots(values);
  }

  method PrintRoots(values: seq<Root>) returns (text: string)
    ensures text == DumpText(values)
  {
    text := "";
    var i := 0;
    while i < |values|
      invariant 0 <= i <= |values|
      invariant text + DumpText(values[i..]) == DumpText(values)
    {
      DumpNext(values, i, text);
      var root := values[i];
      if root.rewatch { text := text + Line(root); }
      i := i + 1;
    }
  }

  lemma DumpNext(values: seq<Root>, i: nat, text: string)
    requires i < |values|
    ensures text + DumpText(values[i..])
            == (if values[i].rewatch then text + Line(values[i]) else text) + DumpText(values[i + 1..])
  {
  }

  /** The tables after the restore loop has read `text`; None if it crashes.
      `pick` is the iteration order of the root table. */
  function RestoreAll(t: Tables, text: string, opens: Path -> bool, pick: set<Path> -> seq<Path>): (r: Option<Tables>)
    requires t.Indexed()
    ensures r.Some? ==> r.value.Indexed()
    decreases |text|
  {
    if text == "" then Some(t) else
    var (line, rest) := Fgets(text);
    match ParseLine(line)
    case Crash => None
    case Invalid => RestoreAll(t, rest, opens, pick)
    case Entry(path, mask, maxEvents) =>
      if WatchOutcome(t, pick(t.roots.Keys), path, opens(WatchKey(path))).Some? then RestoreAll(t, rest, opens, pick)
      else RestoreAll(Insert(t, WatchKey(path), AsWord(mask), maxEvents, true), rest, opens, pick)
  }

  /** Since there were `before` Roots, a walk was started for each new one in turn. */
  ghost predicate WalksStarted(before: seq<Root>, walked: seq<Walk>, objs: seq<Root>, walks: seq<Walk>) {
    && before <= objs && |walks| == |walked| + (|objs| - |before|) && walked <= walks
    && forall id | |before| <= id < |objs| :: walks[|walked| + (id - |before|)] == Walk(objs[id].path, id, false)
  }

  /** The restore loop of `inotify_setup` (src/inotify.c:153-170). */
  method RestoreRoots(reg: Registry, text: string, opens: Path -> bool, pick: set<Path> -> seq<Path>) returns (ok: bool)
    requires reg.T().Indexed() && forall s :: Enumerates(pick(s), s)
    modifies reg
    ensures ok <==> RestoreAll(old(reg.T()), text, opens, pick).Some?
    ensures ok ==> reg.T() == RestoreAll(old(reg.T()), text, opens, pick).value
    ensures WalksStarted(old(reg.objs), old(reg.walks), reg.objs, reg.walks)
    ensures reg.retired == old(reg.retired) && reg.doomed == old(reg.doomed)
  {
    var rest := text;
    while rest != ""
      invariant reg.T().Indexed()
      invariant RestoreAll(reg.T(), rest, opens, pick) == RestoreAll(old(reg.T()), text, opens, pick)
      invariant WalksStarted(old(reg.objs), old(reg.walks), reg.objs, reg.walks)
      invariant reg.retired == old(reg.retired) && reg.doomed == old(reg.doomed)
      decreases |rest|
    {
      var (line, tail) := Fgets(rest);
      rest := tail;
      match ParseLine(line)
      case Crash => return false;
      case Invalid =>
      case Entry(path, mask, maxEvents) =>
        var error := reg.WatchTree(path, AsWord(mask), maxEvents, true, opens(WatchKey(path)), pick(reg.roots.Keys));
    }
    ok := true;
  }

  // ---- one line ----------------------------------------------------------

  lemma {:induction false} IndexOfFirst(a: string, c: char, b: string)
    requires c !in a
    ensures IndexOf(a + [c] + b, c) == |a|
  {
    if a == "" {
      assert (a + [c] + b)[0] == c;
    } else {
      assert a[0] in a && a[0] != c;
      assert (a + [c] + b)[1..] == a[1..] + [c] + b;
      IndexOfFirst(a[1..], c, b);
    }
  }

  lemma {:induction false} IndexOfNone(a: string, c: char)
    requires c !in a
    ensures IndexOf(a, c) == |a|
  {
  }

  lemma DecimalChars(x: int)
    ensures Decimal(x) != "" && forall c | c in Decimal(x) :: c == '-' || IsDigit(c)
  {
  }

  /** A token of its own, up to the next comma. */
  lemma TokenOf(a: string, b: string)
    requires a != "" && ',' !in a
    ensures Token(a + "," + b) == Some((a, b))
  {
    IndexOfFirst(a, ',', b);
    var s := a + [','] + b;
    assert a[0] in a && s[0] == a[0] && s == a + "," + b;
    assert s[..|a|] == a && s[|a| + 1..] == b;
  }

  lemma LastToken(a: string)
    requires a != "" && ',' !in a
    ensures Token(a) == Some((a, ""))
  {
    IndexOfNone(a, ',');
    assert a[0] in a && a[..|a|] == a;
  }

  /** A dumped line is read back as the root it was written for exactly if the
      path holds no comma. */
  lemma LineReadsBack(r: Root)
    requires IsAbsolute(r.path) && r.mask != 0 && r.maxEvents != 0
    ensures ParseLine(Line(r)) == Entry(r.path, Signed(r.mask), r.maxEvents) <==> ',' !in r.path
  {
    var m, x := Decimal(Signed(r.mask)), Decimal(r.maxEvents);
    var line := Line(r);
    var s := r.path + "," + (m + "," + x);
    assert line == s + "\n" && line[..|line| - 1] == s;
    DecimalChars(Signed(r.mask));
    DecimalChars(r.maxEvents);
    if ',' !in r.path {
      TokenOf(r.path, m + "," + x);
      TokenOf(m, x);
      LastToken(x);
      AtoiDecimal(Signed(r.mask));
      AtoiDecimal(r.maxEvents);
    }
  }

  /** `fgets` gives the dumped line back exactly if the path holds no newline
      and the line fits the buffer. */
  lemma FgetsLine(r: Root, rest: string)
    ensures Fgets(Line(r) + rest).0 == Line(r) <==> '\n' !in r.path && |Line(r)| < 1024
  {
    var m, x := Decimal(Signed(r.mask)), Decimal(r.maxEvents);
    var body := r.path + "," + m + "," + x;
    DecimalChars(Signed(r.mask));
    DecimalChars(r.maxEvents);
    assert Line(r) + rest == body + ['\n'] + rest;
    var text := Line(r) + rest;
    if '\n' !in r.path {
      assert '\n' !in body;
      IndexOfFirst(body, '\n', rest);
      assert text[..|Line(r)|] == Line(r);
    } else {
      var k :| 0 <= k < |r.path| && r.path[k] == '\n';
      assert text[k] == '\n';
    }
  }

  // ---- the round trip ----------------------------------------------------

  /** The root's line survives the file format. */
  ghost predicate Printable(r: Root) {
    && IsAbsolute(r.path) && WatchKey(r.path) == r.path
    && ',' !in r.path && '\n' !in r.path && |Line(r)| < LINE_MAX
    && r.mask != 0 && r.maxEvents != 0
  }

  /** What the dumped Root is after the restart. */
  function Fresh(r: Root): Root {
    Root(r.path, r.mask, r.maxEvents, [], false, false, false, true)
  }

  /** The rewatched roots among `values` whose directory still opens. */
  function Kept(values: seq<Root>, opens: Path -> bool): set<Path> {
    set v | v in values && v.rewatch && opens(v.path) :: v.path
  }

  /** The root tables hold exactly a fresh Root for each kept one. */
  ghost predicate Recreated(t: Tables, values: seq<Root>, opens: Path -> bool)
    requires t.Indexed()
  {
    && t.roots.Keys == Kept(values, opens)
    && t.numRoots == |t.roots|
    && AllFresh(t.roots, t.objs, values, opens)
  }

  ghost predicate AllFresh(roots: map<Path, RootId>, objs: seq<Root>, values: seq<Root>, opens: Path -> bool) {
    forall v | v in values && v.rewatch && opens(v.path) ::
      v.path in roots && roots[v.path] < |objs| && objs[roots[v.path]] == Fresh(v)
  }

  lemma SignedRoundTrip(w: Word)
    ensures AsWord(Signed(w)) == w
  {
  }

  /** One more line. */
  lemma RestoreLine(t: Tables, r: Root, rest: string, opens: Path -> bool, pick: set<Path> -> seq<Path>)
    requires t.Indexed() && Printable(r) && Clear(t.roots.Keys, r.path)
    requires forall s :: Enumerates(pick(s), s)
    ensures RestoreAll(t, Line(r) + rest, opens, pick)
            == RestoreAll(if opens(r.path) then Insert(t, r.path, r.mask, r.maxEvents, true) else t, rest, opens, pick)
  {
    FgetsLine(r, rest);
    LineReadsBack(r);
    SignedRoundTrip(r.mask);
    RefusalIsClear(t, pick(t.roots.Keys), r.path);
    var text := Line(r) + rest;
    assert text[|Line(r)|..] == rest;
  }

  /** Rewatched roots that collide with none of the others: a part of an antichain,
      with `/` alone or not among them. */
  ghost predicate Apart(values: seq<Root>) {
    forall i, j | 0 <= i < |values| && 0 <= j < |values| && i != j && values[i].rewatch && values[j].rewatch ::
      values[i].path != "/" && values[i].path != values[j].path && !Occurs(values[i].path, values[j].path + "/")
  }

  lemma ClearSoFar(values: seq<Root>, n: nat, opens: Path -> bool)
    requires Apart(values) && n < |values| && values[n].rewatch
    ensures Clear(Kept(values[..n], opens), values[n].path)
  {
  }

  lemma KeptNext(before: seq<Root>, v: Root, opens: Path -> bool)
    ensures Kept(before + [v], opens) == Kept(before, opens) + if v.rewatch && opens(v.path) then {v.path} else {}
  {
  }

  lemma InsertIndexed(t: Tables, v: Root)
    requires t.Indexed() && v.path !in t.roots
    ensures var t' := Insert(t, v.path, v.mask, v.maxEvents, true);
            && t'.Indexed() && t'.roots == t.roots[v.path := |t.objs|] && t'.objs == t.objs + [Fresh(v)]
            && t'.roots.Keys == t.roots.Keys + {v.path} && (t.numRoots == |t.roots| ==> t'.numRoots == |t'.roots|)
  {
    OneMoreKey(t.roots, v.path, |t.objs|);
  }

  lemma OneMoreKey(m: map<Path, RootId>, p: Path, id: RootId)
    requires p !in m
    ensures m[p := id].Keys == m.Keys + {p} && |m[p := id]| == |m| + 1
  {
  }

  lemma InsertRecreates(t: Tables, before: seq<Root>, v: Root, opens: Path -> bool)
    requires t.Indexed() && Recreated(t, before, opens)
    requires v.rewatch && opens(v.path) && v.path !in t.roots
    ensures var t' := Insert(t, v.path, v.mask, v.maxEvents, true);
            t'.Indexed() && Recreated(t', before + [v], opens)
  {
    InsertIndexed(t, v);
    FreshNext(t.roots, t.objs, before, v, opens);
    KeptNext(before, v, opens);
  }

  lemma FreshNext(roots: map<Path, RootId>, objs: seq<Root>, values: seq<Root>, v: Root, opens: Path -> bool)
    requires AllFresh(roots, objs, values, opens) && v.path !in roots
    ensures AllFresh(roots[v.path := |objs|], objs + [Fresh(v)], values + [v], opens)
  {
  }

  lemma SkipRecreates(t: Tables, before: seq<Root>, v: Root, opens: Path -> bool)
    requires t.Indexed() && Recreated(t, before, opens) && !(v.rewatch && opens(v.path))
    ensures Recreated(t, before + [v], opens)
  {
  }

  /** The restore loop deals with what was dumped for one more root. */
  lemma RestoreNext(t: Tables, before: seq<Root>, v: Root, rest: string, opens: Path -> bool,
                    pick: set<Path> -> seq<Path>) returns (t': Tables)
    requires t.Indexed() && Recreated(t, before, opens)
    requires v.rewatch ==> Printable(v) && Clear(t.roots.Keys, v.path)
    requires forall s :: Enumerates(pick(s), s)
    ensures t'.Indexed() && Recreated(t', before + [v], opens)
    ensures RestoreAll(t, (if v.rewatch then Line(v) else "") + rest, opens, pick) == RestoreAll(t', rest, opens, pick)
  {
    t' := t;
    if v.rewatch {
      RestoreLine(t, v, rest, opens, pick);
    } else {
      assert "" + rest == rest;
    }
    if v.rewatch && opens(v.path) {
      t' := Insert(t, v.path, v.mask, v.maxEvents, true);
      InsertRecreates(t, before, v, opens);
    } else {
      SkipRecreates(t, before, v, opens);
    }
  }

  lemma DumpFrom(values: seq<Root>, n: nat)
    requires n < |values|
    ensures DumpText(values[n..]) == (if values[n].rewatch then Line(values[n]) else "") + DumpText(values[n + 1..])
    ensures values[..n + 1] == values[..n] + [values[n]]
  {
    assert values[n..][1..] == values[n + 1..];
  }

  lemma {:induction false} RestoreFrom(t: Tables, values: seq<Root>, n: nat, opens: Path -> bool,
                                       pick: set<Path> -> seq<Path>)
    requires t.Indexed() && n <= |values| && Recreated(t, values[..n], opens)
    requires Apart(values) && forall v | v in values && v.rewatch :: Printable(v)
    requires forall s :: Enumerates(pick(s), s)
    ensures var r := RestoreAll(t, DumpText(values[n..]), opens, pick);
            r.Some? && Recreated(r.value, values, opens)
    decreases |values| - n
  {
    if n == |values| {
      assert values[..n] == values;
    } else {
      var v := values[n];
      if v.rewatch { ClearSoFar(values, n, opens); }
      var t' := RestoreNext(t, values[..n], v, DumpText(values[n + 1..]), opens, pick);
      DumpFrom(values, n);
      RestoreFrom(t', values, n + 1, opens, pick);
    }
  }

  /** Dump and restore. Restarting from the dump of an antichain of roots recreates
      exactly the rewatched ones whose directory still opens, with equal path,
      mask and capacity, whatever order the hash tables yield. */
  lemma DumpRestore(t: Tables, values: seq<Root>, opens: Path -> bool, pick: set<Path> -> seq<Path>)
    requires t.Indexed() && Values(t, values) && Antichain(t.roots.Keys)
    requires forall v | v in values && v.rewatch :: Printable(v)
    // `/` is not rewatched next to another root
    requires forall u, v | u in values && v in values && u.rewatch && v.rewatch && u != v :: u.path != "/"
    requires forall s :: Enumerates(pick(s), s)
    ensures var r := RestoreAll(EMPTY, DumpText(values), opens, pick);
            r.Some?
            && r.value.roots.Keys == (set p | p in t.roots && t.objs[t.roots[p]].rewatch && opens(p))
            && r.value.numRoots == |r.value.roots|
            && forall p | p in r.value.roots :: r.value.objs[r.value.roots[p]] == Fresh(t.objs[t.roots[p]])
  {
    ValuesApart(t, values);
    assert values[..0] == [] && values[0..] == values;
    RestoreFrom(EMPTY, values, 0, opens, pick);
    KeptIsRewatched(t, values, opens);
    var t' := RestoreAll(EMPTY, DumpText(values), opens, pick).value;
    forall p | p in t'.roots ensures t'.objs[t'.roots[p]] == Fresh(t.objs[t.roots[p]]) {
      assert p in t'.roots.Keys;
      assert t.objs[t.roots[p]] in values;
    }
  }

  /** A restart from the dump of any reachable state of the running daemon. */
  lemma RestartOfAnyRun(ss: seq<State>, acts: seq<Action>, i: nat, values: seq<Root>, opens: Path -> bool,
                        pick: set<Path> -> seq<Path>)
    requires Run(ss, acts) && ss[0] == INIT && i < |ss|
    requires ss[i].t.Indexed() ==> Values(ss[i].t, values)
    requires forall v | v in values && v.rewatch :: Printable(v)
    requires forall u, v | u in values && v in values && u.rewatch && v.rewatch && u != v :: u.path != "/"
    requires forall s :: Enumerates(pick(s), s)
    ensures ss[i].t.Indexed()
    ensures var t, r := ss[i].t, RestoreAll(EMPTY, DumpText(values), opens, pick);
            r.Some?
            && r.value.roots.Keys == (set p | p in t.roots && t.objs[t.roots[p]].rewatch && opens(p))
            && r.value.numRoots == |r.value.roots|
            && forall p | p in r.value.roots :: r.value.objs[r.value.roots[p]] == Fresh(t.objs[t.roots[p]])
  {
    RootAntichain(ss, acts, i);
    RootLifecycle(ss, acts, i);
    DumpRestore(ss[i].t, values, opens, pick);
  }

  lemma ValuesApart(t: Tables, values: seq<Root>)
    requires t.Indexed() && Values(t, values) && Antichain(t.roots.Keys)
    requires forall u, v | u in values && v in values && u.rewatch && v.rewatch && u != v :: u.path != "/"
    ensures Apart(values)
  {
  }

  lemma KeptIsRewatched(t: Tables, values: seq<Root>, opens: Path -> bool)
    requires t.Indexed() && Values(t, values)
    ensures Kept(values, opens) == set p | p in t.roots && t.objs[t.roots[p]].rewatch && opens(p)
  {
  }

  /** Once `/` is watched every further line is refused, so that beside another
      root the outcome depends on the order of the lines. */
  lemma SlashShutsOut(t: Tables, order: seq<Path>, path: Path, opens: bool)
    requires t.Indexed() && Enumerates(order, t.roots.Keys) && "/" in t.roots
    ensures WatchOutcome(t, order, path, opens).Some?
  {
  }

  // ---- the restarted daemon ----------------------------------------------

  /** `inotify_setup`: empty tables, and then the roots of the dump file (src/inotify.c:105-174). */
  method Setup(text: string, opens: Path -> bool, pick: set<Path> -> seq<Path>) returns (reg: Registry, ok: bool)
    requires forall s :: Enumerates(pick(s), s)
    ensures fresh(reg) && (ok <==> RestoreAll(EMPTY, text, opens, pick).Some?)
    ensures ok ==> reg.T() == RestoreAll(EMPTY, text, opens, pick).value && reg.walks == FirstWalks(reg.objs)
    ensures reg.retired == {} && reg.doomed == []
  {
    reg := new Registry();
    ok := RestoreRoots(reg, text, opens, pick);
  }

  /** One walk for each Root, in the order they were made. */
  function FirstWalks(objs: seq<Root>): (walks: seq<Walk>)
    ensures |walks| == |objs| && forall id | 0 <= id < |objs| :: walks[id] == Walk(objs[id].path, id, false)
  {
    seq(|objs|, i requires 0 <= i < |objs| => Walk(objs[i].path, i, false))
  }

  /** Every Root ever made is in the table. */
  ghost predicate AllListed(t: Tables) {
    forall id | 0 <= id < |t.objs| :: t.objs[id].path in t.roots && t.roots[t.objs[id].path] == id
  }

  lemma {:induction false} RestoredAreListed(t: Tables, text: string, opens: Path -> bool, pick: set<Path> -> seq<Path>)
    requires t.Indexed() && AllListed(t) && forall s :: Enumerates(pick(s), s)
    ensures var r := RestoreAll(t, text, opens, pick); r.Some? ==> AllListed(r.value)
    decreases |text|
  {
    if text != "" {
      var (line, rest) := Fgets(text);
      match ParseLine(line)
      case Crash =>
      case Invalid => RestoredAreListed(t, rest, opens, pick);
      case Entry(path, mask, maxEvents) =>
        RefusalIsClear(t, pick(t.roots.Keys), WatchKey(path));
        if WatchOutcome(t, pick(t.roots.Keys), path, opens(WatchKey(path))).Some? {
          RestoredAreListed(t, rest, opens, pick);
        } else {
          RestoredAreListed(Insert(t, WatchKey(path), AsWord(mask), maxEvents, true), rest, opens, pick);
        }
    }
  }

  /** After a restart from a dump exactly the recreated roots are walked, each once and
      from its own path. */
  lemma RestartIsWalked(t: Tables, values: seq<Root>, opens: Path -> bool, pick: set<Path> -> seq<Path>)
    requires t.Indexed() && Values(t, values) && Antichain(t.roots.Keys)
    requires forall v | v in values && v.rewatch :: Printable(v)
    requires forall u, v | u in values && v in values && u.rewatch && v.rewatch && u != v :: u.path != "/"
    requires forall s :: Enumerates(pick(s), s)
    ensures var r := RestoreAll(EMPTY, DumpText(values), opens, pick);
            r.Some? &&
            var walks := FirstWalks(r.value.objs);
            && (forall p | p in t.roots && t.objs[t.roots[p]].rewatch && opens(p) ::
                  p in r.value.roots && Walk(p, r.value.roots[p], false) in walks)
            && (forall i | 0 <= i < |walks| ::
                  walks[i].path in t.roots && t.objs[t.roots[walks[i].path]].rewatch && opens(walks[i].path))
            && (forall i, j | 0 <= i < j < |walks| :: walks[i].path != walks[j].path)
  {
    DumpRestore(t, values, opens, pick);
    RestoredAreListed(EMPTY, DumpText(values), opens, pick);
    var t' := RestoreAll(EMPTY, DumpText(values), opens, pick).value;
    var walks := FirstWalks(t'.objs);
    forall p | p in t.roots && t.objs[t.roots[p]].rewatch && opens(p)
      ensures p in t'.roots && Walk(p, t'.roots[p], false) in walks
    {
      assert p in t'.roots.Keys;
      assert walks[t'.roots[p]] == Walk(p, t'.roots[p], false);
    }
    forall i | 0 <= i < |walks|
      ensures walks[i].path in t.roots && t.objs[t.roots[walks[i].path]].rewatch && opens(walks[i].path)
    {
      assert walks[i].path in t'.roots.Keys;
    }
  }

  // ---- the format of the file --------------------------------------------

  /** Three fields of a line, as the loop takes them: the path, the mask, the capacity. */
  lemma ParseFields(p: string, m: string, x: string)
    requires p != "" && m != "" && x != "" && ',' !in p && ',' !in m && ',' !in x
    ensures ParseLine(p + "," + m + "," + x + "\n") ==
              if Atoi(m) == 0 || Atoi(x) == 0 then Invalid else Entry(p, Atoi(m), Atoi(x))
  {
    var line, s := p + "," + m + "," + x + "\n", p + "," + (m + "," + x);
    assert line == s + "\n" && line[..|line| - 1] == s;
    TokenOf(p, m + "," + x);
    TokenOf(m, x);
    LastToken(x);
  }

  /** Fewer fields are fatal. */
  lemma FewerFields(p: string, m: string)
    requires p != "" && m != "" && ',' !in p && ',' !in m
    ensures ParseLine(p + "\n") == Crash && ParseLine(p + "," + m + "\n") == Crash
  {
    assert (p + "\n")[..|p|] == p;
    LastToken(p);
    var line, s := p + "," + m + "\n", p + "," + m;
    assert line == s + "\n" && line[..|line| - 1] == s;
    TokenOf(p, m);
    LastToken(m);
  }

  lemma NextDigit(q: nat, d: nat, s: string)
    requires 0 < q && d < 10 && Digits(q) == s
    ensures Digits(10 * q + d) == s + [Digit(d)]
  {
    assert (10 * q + d) / 10 == q && (10 * q + d) % 10 == d;
  }

  /** Two lines as they stand in the file: decimal, the mask before the capacity, and a
      mask with the sign bit as a negative number. */
  lemma LineExample()
    ensures Line(Root("/a", 960, 50, [], false, false, false, true)) == "/a,960,50\n"
    ensures Line(Root("/b", 0xFFFF_FFFE, 7, [], false, false, false, true)) == "/b,-2,7\n"
  {
    assert Digits(9) == "9" && Digits(5) == "5" && Digits(2) == "2" && Digits(7) == "7";
    NextDigit(9, 6, "9");
    NextDigit(96, 0, "96");
    NextDigit(5, 0, "5");
    assert Signed(960) == 960 && Signed(0xFFFF_FFFE) == -2;
    assert Decimal(960) == "960" && Decimal(50) == "50" && Decimal(-2) == "-2" && Decimal(7) == "7";
    assert "/a" + "," + "960" + "," + "50" + "\n" == "/a,960,50\n";
    assert "/b" + "," + "-2" + "," + "7" + "\n" == "/b,-2,7\n";
  }
}
