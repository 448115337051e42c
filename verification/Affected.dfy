/** The selective-deploy decision (rust-backend/deployment/affected.py): which
    services a set of changed files rebuilds. */
module Affected {
  import opened Wrappers
  import opened Globs
  import Names

  // ----- manifests -----

  /** One image-bearing or test-only group of dependency sections. */
  datatype Sections = Sections(deps: set<string>, buildDeps: set<string>, devDeps: set<string>)
  datatype Manifest = Manifest(own: Sections, targets: seq<Sections>)
  /** A `[workspace.dependencies]` entry: the parts of its path, or none for a registry entry. */
  datatype Spec = Registry | PathDep(parts: seq<string>)

  /** The manifests that can be read; a missing or malformed one is absent. */
  datatype Checkout = Checkout(workspace: Option<map<string, Spec>>,
                               crates: map<string, Manifest>, services: map<string, Manifest>)

  /** A Rust service and the suffix of its Dockerfile. */
  datatype Row = Row(name: string, dockerfile: string)
  datatype Tables = Tables(rust: seq<Row>, go: set<string>)

  /** Some section compiled into the image names `n`. */
  ghost predicate ImageDep(m: Manifest, n: string) {
    || n in m.own.deps || n in m.own.buildDeps
    || exists i :: 0 <= i < |m.targets| && (n in m.targets[i].deps || n in m.targets[i].buildDeps)
  }

  /** `_dep_names`: test-only sections contribute nothing. */
  method DepNames(m: Manifest) returns (names: set<string>)
    ensures forall n :: n in names <==> ImageDep(m, n)
  {
    names := m.own.deps + m.own.buildDeps;
    for i := 0 to |m.targets|
      invariant forall n :: n in names <==>
                  (n in m.own.deps || n in m.own.buildDeps ||
                   exists k :: 0 <= k < i && (n in m.targets[k].deps || n in m.targets[k].buildDeps))
    {
      names := names + m.targets[i].deps + m.targets[i].buildDeps;
    }
  }

  /** Dependency name `n` stands for the workspace crate in directory `d`. */
  ghost predicate Entry(co: Checkout, n: string, d: string) {
    co.workspace.Some? && n in co.workspace.value && co.workspace.value[n] == PathDep(["crates", d])
  }

  /** The manifest compiles the workspace crate in directory `d` into its image. */
  ghost predicate Needs(co: Checkout, m: Manifest, d: string) { exists n :: ImageDep(m, n) && Entry(co, n, d) }

  /** From a manifest along the crates' own manifests: each crate is needed by the manifest before it. */
  ghost predicate NeedChain(co: Checkout, m: Manifest, dirs: seq<string>) {
    |dirs| > 0 && Needs(co, m, dirs[0]) &&
    forall i :: 0 <= i < |dirs| - 1 ==> dirs[i] in co.crates && Needs(co, co.crates[dirs[i]], dirs[i + 1])
  }

  /** Crate `c` is compiled into the image of service `name`. */
  ghost predicate InImage(co: Checkout, name: string, c: string) {
    name in co.services && exists dirs :: NeedChain(co, co.services[name], dirs) && dirs[|dirs| - 1] == c
  }

  /** Some manifest the derivation reads is missing or malformed, or the workspace lists no crate. */
  ghost predicate Unreadable(t: Tables, co: Checkout) {
    || co.workspace.None?
    || (forall n, d :: !Entry(co, n, d))
    || (exists n, d :: Entry(co, n, d) && d !in co.crates)
    || (exists i :: 0 <= i < |t.rust| && t.rust[i].name !in co.services)
  }

  // ----- the derivation's own tables -----

  predicate CrateSpec(s: Spec) { s.PathDep? && |s.parts| == 2 && s.parts[0] == "crates" }

  /** `_workspace_crates`: dependency name to directory under `crates/`. */
  function WorkspaceCrates(ws: map<string, Spec>): map<string, string> {
    map n | n in ws && CrateSpec(ws[n]) :: ws[n].parts[1]
  }

  ghost function CrateDeps(crates: map<string, string>, m: Manifest): (r: set<string>)
    ensures r <= crates.Values
  {
    set n | n in crates && ImageDep(m, n) :: crates[n]
  }

  ghost function Crates(co: Checkout): map<string, string>
    requires co.workspace.Some?
  {
    WorkspaceCrates(co.workspace.value)
  }

  lemma EntryIff(co: Checkout, n: string, d: string)
    requires co.workspace.Some?
    ensures Entry(co, n, d) <==> n in Crates(co) && Crates(co)[n] == d
  {
    if n in Crates(co) { assert co.workspace.value[n].parts == ["crates", Crates(co)[n]]; }
  }

  lemma NeedsIff(co: Checkout, m: Manifest, d: string)
    requires co.workspace.Some?
    ensures Needs(co, m, d) <==> d in CrateDeps(Crates(co), m)
  {
    hide Entry, Crates;
    if Needs(co, m, d) {
      var n :| ImageDep(m, n) && Entry(co, n, d);
      EntryIff(co, n, d);
    }
    if d in CrateDeps(Crates(co), m) {
      var n :| n in Crates(co) && ImageDep(m, n) && Crates(co)[n] == d;
      EntryIff(co, n, d);
    }
  }

  lemma UnreadableIff(t: Tables, co: Checkout)
    ensures Unreadable(t, co) <==>
            (|| co.workspace.None?
             || Crates(co) == map[]
             || (exists c :: c in Crates(co).Values && c !in co.crates)
             || (exists i :: 0 <= i < |t.rust| && t.rust[i].name !in co.services))
  {
    hide Entry, Crates;
    if co.workspace.Some? {
      forall n, d ensures Entry(co, n, d) <==> n in Crates(co) && Crates(co)[n] == d { EntryIff(co, n, d); }
      if forall n, d :: !Entry(co, n, d) {
        assert forall n :: n in Crates(co) ==> Entry(co, n, Crates(co)[n]);
      }
      if c :| c in Crates(co).Values && c !in co.crates {
        var n :| n in Crates(co) && Crates(co)[n] == c;
        assert Entry(co, n, c);
      }
    }
  }

  // ----- dependency closure -----

  type Graph = map<string, set<string>>

  ghost predicate Chain(g: Graph, p: seq<string>) {
    forall i :: 0 <= i < |p| - 1 ==> p[i] in g && p[i + 1] in g[p[i]]
  }

  /** `c` is reached from `start` along dependency edges. */
  ghost predicate Reachable(g: Graph, start: set<string>, c: string) {
    exists p: seq<string> :: |p| > 0 && p[0] in start && p[|p| - 1] == c && Chain(g, p)
  }

  ghost predicate ClosedGraph(g: Graph) { forall c :: c in g ==> g[c] <= g.Keys }

  lemma ReachStart(g: Graph, start: set<string>, c: string)
    requires c in start
    ensures Reachable(g, start, c)
  {
    assert [c][0] == c && Chain(g, [c]);
  }

  lemma ReachStep(g: Graph, start: set<string>, c: string, d: string)
    requires Reachable(g, start, c) && c in g && d in g[c]
    ensures Reachable(g, start, d)
  {
    var p :| |p| > 0 && p[0] in start && p[|p| - 1] == c && Chain(g, p);
    var q := p + [d];
    assert q[0] == p[0] && q[|q| - 1] == d && Chain(g, q);
  }

  lemma {:induction false} ChainStaysInside(g: Graph, inside: set<string>, p: seq<string>)
    requires |p| > 0 && p[0] in inside && Chain(g, p)
    requires forall c :: c in inside && c in g ==> g[c] <= inside
    ensures p[|p| - 1] in inside
  {
    if |p| > 1 {
      var q := p[..|p| - 1];
      assert Chain(g, q);
      ChainStaysInside(g, inside, q);
      assert p[|p| - 2] in g && p[|p| - 1] in g[p[|p| - 2]];
    }
  }

  /** `list` of a set, in whatever order iteration gives. */
  method ListOf(s: set<string>) returns (q: seq<string>)
    ensures forall x :: x in q <==> x in s
  {
    q := [];
    var left := s;
    while left != {}
      invariant left <= s
      invariant forall x :: x in q <==> x in s && x !in left
      decreases left
    {
      var x :| x in left;
      q := q + [x];
      left := left - {x};
    }
  }

  lemma ClosedHoldsReachable(g: Graph, start: set<string>, inside: set<string>, c: string)
    requires start <= inside && Reachable(g, start, c)
    requires forall c :: c in inside && c in g ==> g[c] <= inside
    ensures c in inside
  {
    var p :| |p| > 0 && p[0] in start && p[|p| - 1] == c && Chain(g, p);
    ChainStaysInside(g, inside, p);
  }

  lemma Popped(q: seq<string>, x: string)
    requires q != []
    ensures x in q <==> x in q[..|q| - 1] || x == q[|q| - 1]
  {
    assert q == q[..|q| - 1] + [q[|q| - 1]];
  }

  /** What is seen or queued is reachable, and nothing reachable from it is forgotten. */
  ghost predicate Frontier(g: Graph, start: set<string>, seen: set<string>, queue: seq<string>) {
    && seen <= g.Keys
    && (forall c :: c in queue ==> c in g)
    && (forall c :: c in queue ==> Reachable(g, start, c))
    && (forall c :: c in seen ==> Reachable(g, start, c))
    && (forall c :: c in start ==> c in seen || c in queue)
    && (forall c, d :: c in seen && d in g[c] ==> d in seen || d in queue)
  }

  lemma FrontierExpand(g: Graph, start: set<string>, seen: set<string>, queue: seq<string>, more: seq<string>)
    requires ClosedGraph(g) && queue != [] && Frontier(g, start, seen, queue)
    requires var c := queue[|queue| - 1]; forall d :: d in more <==> d in g[c] - (seen + {c})
    ensures Frontier(g, start, seen + {queue[|queue| - 1]}, queue[..|queue| - 1] + more)
  {
    hide Reachable;
    var c := queue[|queue| - 1];
    assert c in queue;
    forall x ensures x in queue <==> x in queue[..|queue| - 1] || x == c { Popped(queue, x); }
    forall d | d in more ensures Reachable(g, start, d) { ReachStep(g, start, c, d); }
  }

  lemma FrontierSkip(g: Graph, start: set<string>, seen: set<string>, queue: seq<string>)
    requires queue != [] && Frontier(g, start, seen, queue) && queue[|queue| - 1] in seen
    ensures Frontier(g, start, seen, queue[..|queue| - 1])
  {
    hide Reachable;
    forall x ensures x in queue <==> x in queue[..|queue| - 1] || x == queue[|queue| - 1] { Popped(queue, x); }
  }

  lemma FrontierDone(g: Graph, start: set<string>, seen: set<string>)
    requires Frontier(g, start, seen, [])
    ensures forall c :: c in seen <==> Reachable(g, start, c)
  {
    forall c | Reachable(g, start, c) ensures c in seen { ClosedHoldsReachable(g, start, seen, c); }
  }

  lemma FrontierInit(g: Graph, start: set<string>, queue: seq<string>)
    requires start <= g.Keys && forall c :: c in queue <==> c in start
    ensures Frontier(g, start, {}, queue)
  {
    forall c | c in start ensures Reachable(g, start, c) { ReachStart(g, start, c); }
  }

  /** The worklist of `crate_globs`: it ends, duplicates included, with the reachable crates. */
  method Closure(direct: Graph, start: set<string>) returns (seen: set<string>)
    requires ClosedGraph(direct) && start <= direct.Keys
    ensures forall c :: c in seen <==> Reachable(direct, start, c)
  {
    hide Reachable;
    seen := {};
    var queue := ListOf(start);
    FrontierInit(direct, start, queue);
    while queue != []
      invariant Frontier(direct, start, seen, queue)
      decreases direct.Keys - seen, |queue|
    {
      var c := queue[|queue| - 1];
      assert c in queue;
      if c in seen {
        FrontierSkip(direct, start, seen, queue);
        queue := queue[..|queue| - 1];
      } else {
        var more := ListOf(direct[c] - (seen + {c}));
        FrontierExpand(direct, start, seen, queue, more);
        seen := seen + {c};
        queue := queue[..|queue| - 1] + more;
      }
    }
    FrontierDone(direct, start, seen);
  }

  ghost function Direct(co: Checkout): (g: Graph)
    requires co.workspace.Some? && Crates(co).Values <= co.crates.Keys
    ensures g.Keys == Crates(co).Values && ClosedGraph(g)
  {
    map c | c in Crates(co).Values :: CrateDeps(Crates(co), co.crates[c])
  }

  /** The image of a service holds the crates its dependency graph reaches. */
  lemma ImageIsReachable(co: Checkout, name: string, c: string)
    requires co.workspace.Some? && Crates(co).Values <= co.crates.Keys && name in co.services
    ensures InImage(co, name, c) <==> Reachable(Direct(co), CrateDeps(Crates(co), co.services[name]), c)
  {
    var m := co.services[name];
    hide Needs, Crates, CrateDeps, ImageDep;
    forall m, d ensures Needs(co, m, d) <==> d in CrateDeps(Crates(co), m) { NeedsIff(co, m, d); }
    if InImage(co, name, c) {
      var p :| NeedChain(co, m, p) && p[|p| - 1] == c;
      forall i | 0 <= i < |p| - 1 ensures p[i] in Direct(co) {
        if i > 0 { assert Needs(co, co.crates[p[i - 1]], p[i]); }
      }
      assert Chain(Direct(co), p);
    }
    if Reachable(Direct(co), CrateDeps(Crates(co), m), c) {
      var p :| |p| > 0 && p[0] in CrateDeps(Crates(co), m) && p[|p| - 1] == c && Chain(Direct(co), p);
      assert NeedChain(co, m, p);
    }
  }

  function CrateGlob(c: string): string { "rust-backend/crates/" + c + "/" + "**" }

  method DirectDeps(crates: map<string, string>, m: Manifest) returns (r: set<string>)
    ensures r == CrateDeps(crates, m)
  {
    var names := DepNames(m);
    r := set n | n in names && n in crates :: crates[n];
  }

  /** Every crate's direct dependencies; `None` when some crate's manifest cannot be read. */
  method DirectGraph(crates: map<string, string>, co: Checkout) returns (r: Option<Graph>)
    requires co.workspace.Some? && Crates(co) == crates
    ensures r.None? <==> exists c :: c in crates.Values && c !in co.crates
    ensures r.Some? ==> r.value.Keys == crates.Values
    ensures r.Some? ==> forall c :: c in r.value ==> c in co.crates && r.value[c] == CrateDeps(crates, co.crates[c])
    ensures r.Some? ==> forall c, d :: c in r.value ==> (d in r.value[c] <==> Needs(co, co.crates[c], d))
  {
    var direct: Graph := map[];
    var left := crates.Values;
    while left != {}
      invariant left <= crates.Values && direct.Keys == crates.Values - left && direct.Keys <= co.crates.Keys
      invariant forall c :: c in direct ==> direct[c] == CrateDeps(crates, co.crates[c])
      decreases left
    {
      var c :| c in left;
      if c !in co.crates { return None; }
      var ds := DirectDeps(crates, co.crates[c]);
      direct := direct[c := ds];
      left := left - {c};
    }
    forall c, d | c in direct ensures d in direct[c] <==> Needs(co, co.crates[c], d) { NeedsIff(co, co.crates[c], d); }
    return Some(direct);
  }

  /** The globs of the crates in one service's image. */
  method ImageGlobs(crates: map<string, string>, direct: Graph, co: Checkout, name: string) returns (globs: seq<string>)
    requires co.workspace.Some? && Crates(co) == crates && crates.Values <= co.crates.Keys && direct == Direct(co)
    requires name in co.services
    ensures forall g :: g in globs <==> exists c :: InImage(co, name, c) && g == CrateGlob(c)
  {
    var start := DirectDeps(crates, co.services[name]);
    var seen := Closure(direct, start);
    forall c ensures InImage(co, name, c) <==> c in seen { ImageIsReachable(co, name, c); }
    hide InImage, Reachable, CrateDeps;
    globs := ListOf(set c | c in seen :: CrateGlob(c));
  }

  /** `crate_globs`: fails exactly when a manifest is unreadable, else each Rust service
      gets the globs of the crates in its image. */
  method CrateGlobs(t: Tables, co: Checkout) returns (r: Option<seq<seq<string>>>)
    ensures r.None? <==> Unreadable(t, co)
    ensures r.Some? ==> |r.value| == |t.rust| && forall i, g :: 0 <= i < |t.rust| ==>
              (g in r.value[i] <==> exists c :: InImage(co, t.rust[i].name, c) && g == CrateGlob(c))
  {
    UnreadableIff(t, co);
    hide Unreadable;
    if co.workspace.None? { return None; }
    var crates := WorkspaceCrates(co.workspace.value);
    if crates == map[] { return None; }
    var direct := DirectGraph(crates, co);
    if direct.None? { return None; }
    assert direct.value == Direct(co);
    r := ServiceGlobs(t, crates, direct.value, co);
  }

  /** The globs of every service's image; `None` when some service's manifest cannot be read. */
  method ServiceGlobs(t: Tables, crates: map<string, string>, direct: Graph, co: Checkout)
    returns (r: Option<seq<seq<string>>>)
    requires co.workspace.Some? && Crates(co) == crates && crates.Values <= co.crates.Keys && direct == Direct(co)
    ensures r.None? <==> exists i :: 0 <= i < |t.rust| && t.rust[i].name !in co.services
    ensures r.Some? ==> |r.value| == |t.rust| && forall i, g :: 0 <= i < |t.rust| ==>
              (g in r.value[i] <==> exists c :: InImage(co, t.rust[i].name, c) && g == CrateGlob(c))
  {
    hide InImage, CrateGlob, Crates, Direct;
    var derived: seq<seq<string>> := [];
    for i := 0 to |t.rust|
      invariant |derived| == i
      invariant forall k :: 0 <= k < i ==> t.rust[k].name in co.services
      invariant forall k, g :: 0 <= k < i ==>
                  (g in derived[k] <==> exists c :: InImage(co, t.rust[k].name, c) && g == CrateGlob(c))
    {
      var name := t.rust[i].name;
      if name !in co.services { return None; }
      var globs := ImageGlobs(crates, direct, co, name);
      derived := derived + [globs];
    }
    return Some(derived);
  }

  // ----- the decision -----

  const LOCKFILE: string := "rust-backend/Cargo.lock"
  const REBUILD_ALL_GLOBS: seq<string> :=
    ["rust-backend/Cargo.lock", "rust-backend/Cargo.toml", "rust-backend/deployment/" + "**",
     "rust-backend/infra/" + "**", ".github/workflows/" + "**"]
  const DATA_ROOM_GLOBS: seq<string> := ["rust-backend/data-room/" + "**"]
  const GO_GLOBS: seq<string> := ["go-backend/" + "**"]

  function OwnGlobs(r: Row): seq<string> {
    ["rust-backend/services/" + r.name + "/" + "**", "rust-backend/Dockerfile." + r.dockerfile]
  }

  function All(t: Tables): set<string> { (set i | 0 <= i < |t.rust| :: t.rust[i].name) + t.go }

  predicate DataRoom(f: string) { MatchSome(f, DATA_ROOM_GLOBS) }
  predicate RebuildAll(f: string) { MatchSome(f, REBUILD_ALL_GLOBS) }
  predicate InRustBackend(f: string) { "rust-backend/" <= f }

  /** `_lockfile_is_data_room_only`. */
  predicate LockfileIsDataRoomOnly(files: set<string>) {
    && LOCKFILE in files
    && (exists f :: f in files && f != LOCKFILE && DataRoom(f))
    && (forall f :: f in files && f != LOCKFILE && InRustBackend(f) ==> DataRoom(f))
  }

  /** The changed files that count. */
  function Kept(files: set<string>): set<string> {
    if LockfileIsDataRoomOnly(files) then files - {LOCKFILE} else files
  }

  lemma KeptNonEmpty(files: set<string>)
    requires files != {}
    ensures Kept(files) != {}
  {
    hide DataRoom;
    if LockfileIsDataRoomOnly(files) {
      var f :| f in files && f != LOCKFILE && DataRoom(f);
      assert f in Kept(files);
    }
  }

  /** `f` lies under the Rust service's own globs or under a crate of its image. */
  ghost predicate TouchesRust(co: Checkout, r: Row, f: string) {
    MatchSome(f, OwnGlobs(r)) || exists c :: InImage(co, r.name, c) && MatchGlob(f, CrateGlob(c))
  }

  ghost predicate Touches(t: Tables, co: Checkout, svc: string, f: string) {
    || (exists i :: 0 <= i < |t.rust| && t.rust[i].name == svc && TouchesRust(co, t.rust[i], f))
    || (svc in t.go && MatchSome(f, GO_GLOBS))
  }

  /** Every service is rebuilt. */
  ghost predicate Everything(t: Tables, co: Checkout, kept: set<string>) {
    kept != {} && (Unreadable(t, co) || exists f :: f in kept && RebuildAll(f))
  }

  ghost predicate Rebuilt(t: Tables, co: Checkout, files: set<string>, svc: string) {
    var kept := Kept(files);
    || (svc in All(t) && Everything(t, co, kept))
    || exists f :: f in kept && Touches(t, co, svc, f)
  }

  // ----- input lines -----

  /** Python's white space. */
  predicate Space(c: char) {
    || '\t' <= c <= '\r' || '\U{001C}' <= c <= ' ' || c == '\U{0085}' || c == '\U{00A0}' || c == '\U{1680}'
    || '\U{2000}' <= c <= '\U{200A}' || c == '\U{2028}' || c == '\U{2029}' || c == '\U{202F}' || c == '\U{205F}'
    || c == '\U{3000}'
  }
  function StripLeft(s: string): string { if s != "" && Space(s[0]) then StripLeft(s[1..]) else s }
  function StripRight(s: string): string { if s != "" && Space(s[|s| - 1]) then StripRight(s[..|s| - 1]) else s }
  function Strip(s: string): string { StripRight(StripLeft(s)) }

  /** The lines that are not blank, without the white space around them. */
  function Changed(lines: seq<string>): set<string> {
    set i | 0 <= i < |lines| && Strip(lines[i]) != "" :: Strip(lines[i])
  }

  predicate AllSpace(s: string) { forall i :: 0 <= i < |s| ==> Space(s[i]) }

  /** `f` neither begins nor ends with white space. */
  predicate Bare(f: string) { f != "" && !Space(f[0]) && !Space(f[|f| - 1]) }

  lemma {:induction false} StripLeftAt(a: string, f: string)
    requires AllSpace(a) && f != "" && !Space(f[0])
    ensures StripLeft(a + f) == f
  {
    if a == "" {
      assert a + f == f;
    } else {
      assert (a + f)[0] == a[0] && (a + f)[1..] == a[1..] + f;
      StripLeftAt(a[1..], f);
    }
  }

  lemma {:induction false} StripRightAt(f: string, b: string)
    requires AllSpace(b) && f != "" && !Space(f[|f| - 1])
    ensures StripRight(f + b) == f
    decreases |b|
  {
    var s := f + b;
    if b == "" {
      assert s == f;
    } else {
      assert s[|s| - 1] == b[|b| - 1] && s[..|s| - 1] == f + b[..|b| - 1];
      StripRightAt(f, b[..|b| - 1]);
    }
  }

  lemma {:induction false} StripLeftParts(s: string) returns (a: string)
    ensures AllSpace(a) && s == a + StripLeft(s) && (StripLeft(s) != "" ==> !Space(StripLeft(s)[0]))
  {
    a := "";
    if s != "" && Space(s[0]) {
      var b := StripLeftParts(s[1..]);
      a := [s[0]] + b;
    }
  }

  lemma {:induction false} StripRightParts(s: string) returns (b: string)
    ensures AllSpace(b) && s == StripRight(s) + b
    ensures StripRight(s) != "" ==> !Space(StripRight(s)[|StripRight(s)| - 1])
    decreases |s|
  {
    b := "";
    if s != "" && Space(s[|s| - 1]) {
      var c := StripRightParts(s[..|s| - 1]);
      b := c + [s[|s| - 1]];
    }
  }

  ghost predicate Around(line: string, f: string) { exists a, b :: AllSpace(a) && AllSpace(b) && line == a + (f + b) }

  lemma StripIff(line: string, f: string)
    requires f != ""
    ensures Strip(line) == f <==> Bare(f) && Around(line, f)
  {
    if Strip(line) == f {
      var a := StripLeftParts(line);
      var b := StripRightParts(StripLeft(line));
      assert StripLeft(line) == f + b;
      assert f[0] == StripLeft(line)[0];
    }
    if Bare(f) && Around(line, f) {
      var a, b :| AllSpace(a) && AllSpace(b) && line == a + (f + b);
      assert (f + b)[0] == f[0];
      StripLeftAt(a, f + b);
      StripRightAt(f, b);
    }
  }

  /** A path counts as changed exactly when some line is that path with white space around it. */
  lemma ChangedIff(lines: seq<string>, f: string)
    ensures f in Changed(lines) <==> Bare(f) && exists i :: 0 <= i < |lines| && Around(lines[i], f)
  {
    hide Strip, Bare, Around;
    if f == "" {
      assert !Bare(f) by { BareIsNotEmpty(f); }
    } else {
      forall i | 0 <= i < |lines| ensures Strip(lines[i]) == f <==> Bare(f) && Around(lines[i], f) {
        StripIff(lines[i], f);
      }
    }
  }

  lemma BareIsNotEmpty(f: string)
    requires f == ""
    ensures !Bare(f)
  {
  }

  method SomeFileMatches(files: set<string>, globs: seq<string>) returns (b: bool)
    ensures b <==> exists f :: f in files && MatchSome(f, globs)
  {
    var left := files;
    while left != {}
      invariant left <= files && forall f :: f in files - left ==> !MatchSome(f, globs)
      decreases left
    {
      var f :| f in left;
      var m := MatchAny(f, globs);
      if m { return true; }
      left := left - {f};
    }
    return false;
  }
  lemma MatchSomeConcat(f: string, a: seq<string>, b: seq<string>)
    ensures MatchSome(f, a + b) <==> MatchSome(f, a) || MatchSome(f, b)
  {
    hide MatchGlob;
    if MatchSome(f, a) {
      var k :| 0 <= k < |a| && MatchGlob(f, a[k]);
      assert (a + b)[k] == a[k];
    }
    if MatchSome(f, b) {
      var k :| 0 <= k < |b| && MatchGlob(f, b[k]);
      assert (a + b)[|a| + k] == b[k];
    }
  }

  lemma MatchSomeMembers(f: string, globs: seq<string>)
    ensures MatchSome(f, globs) <==> exists g :: g in globs && MatchGlob(f, g)
  {
  }

  lemma GlobsTouch(t: Tables, co: Checkout, i: nat, globs: seq<string>, f: string)
    requires i < |t.rust|
    requires forall g :: g in globs <==> exists c :: InImage(co, t.rust[i].name, c) && g == CrateGlob(c)
    ensures MatchSome(f, OwnGlobs(t.rust[i]) + globs) <==> TouchesRust(co, t.rust[i], f)
  {
    MatchSomeConcat(f, OwnGlobs(t.rust[i]), globs);
    MatchSomeMembers(f, globs);
    hide MatchGlob, MatchSome, InImage, OwnGlobs, CrateGlob;
  }

  /** `affected_services`: the rebuilt services, sorted by name. */
  method AffectedServices(t: Tables, co: Checkout, lines: seq<string>) returns (names: seq<string>)
    ensures Names.Sorted(names) && forall svc :: svc in names <==> Rebuilt(t, co, Changed(lines), svc)
  {
    var hit := Hit(t, co, lines);
    names := Names.Sort(hit);
  }

  /** `f` touches one of the first `n` services, and its name is `svc`. */
  ghost predicate HitBefore(t: Tables, co: Checkout, n: nat, svc: string, f: string)
    requires n <= |t.rust|
  {
    exists k :: 0 <= k < n && t.rust[k].name == svc && TouchesRust(co, t.rust[k], f)
  }

  method Hit(t: Tables, co: Checkout, lines: seq<string>) returns (hit: set<string>)
    ensures forall svc :: svc in hit <==> Rebuilt(t, co, Changed(lines), svc)
  {
    hide MatchSome, Unreadable, LockfileIsDataRoomOnly;
    var files := Changed(lines);
    if files == {} { return {}; }
    KeptNonEmpty(files);
    files := Kept(files);
    var rebuild := SomeFileMatches(files, REBUILD_ALL_GLOBS);
    if rebuild {
      return All(t);
    }
    var derived := CrateGlobs(t, co);
    if derived.None? {
      return All(t);
    }
    hit := {};
    for i := 0 to |t.rust|
      invariant forall svc :: svc in hit <==>
                  exists f :: f in files && HitBefore(t, co, i, svc, f)
    {
      forall f ensures MatchSome(f, OwnGlobs(t.rust[i]) + derived.value[i]) <==> TouchesRust(co, t.rust[i], f) {
        GlobsTouch(t, co, i, derived.value[i], f);
      }
      var m := SomeFileMatches(files, OwnGlobs(t.rust[i]) + derived.value[i]);
      if m { hit := hit + {t.rust[i].name}; }
    }
    var go := SomeFileMatches(files, GO_GLOBS);
    if go { hit := hit + t.go; }
  }
}
