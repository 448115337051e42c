/** What the selective-deploy decision promises: its meaning in terms of paths,
    and how the answer moves as more files change. */
module DeployRules {
  import opened Wrappers
  import opened Globs
  import opened Affected

  /** The deployed services. */
  const SERVICES: Tables := Tables(
    [Row("indexer", "indexer"), Row("quoting-service", "quoting"), Row("orderbook", "orderbook"),
     Row("mm-bot", "mm-bot"), Row("staging-mm-bot", "staging-mm-bot"), Row("api-service", "api-service"),
     Row("token-info", "token-info"), Row("auth-service", "auth-service"), Row("price-charting", "price-charting"),
     Row("cctp-relay", "cctp-relay"), Row("gas-station", "gas-station"), Row("hedge-signer", "hedge-signer"),
     Row("market-sim", "market-sim"), Row("balance-monitor", "balance-monitor"), Row("keeper", "keeper"),
     Row("twitter-service", "twitter-service"), Row("social-bot", "social-bot"),
     Row("oracle-service", "oracle-service")],
    {"leaderboard", "event-ingestor"})

  const ALL_SERVICES: set<string> :=
    {"indexer", "quoting-service", "mm-bot", "api-service", "token-info", "auth-service", "gas-station",
     "hedge-signer", "market-sim", "price-charting", "balance-monitor", "keeper", "oracle-service", "cctp-relay",
     "twitter-service", "social-bot", "orderbook", "staging-mm-bot", "leaderboard", "event-ingestor"}

  /** Everything below a directory; a directory whose name has glob characters is read as a glob. */
  predicate Below(dir: string, f: string) { if Literal(dir) then dir <= f else MatchGlob(f, dir + "**") }

  predicate Is(file: string, f: string) { if Literal(file) then f == file else MatchGlob(f, file) }

  lemma RebuildAllMeaning(f: string)
    ensures RebuildAll(f) <==>
            (f == LOCKFILE || f == "rust-backend/Cargo.toml" || "rust-backend/deployment/" <= f
             || "rust-backend/infra/" <= f || ".github/workflows/" <= f)
  {
    hide MatchGlob;
    GlobMeaning(f, "rust-backend/Cargo.lock");
    GlobMeaning(f, "rust-backend/Cargo.toml");
    GlobMeaning(f, "rust-backend/deployment/");
    GlobMeaning(f, "rust-backend/infra/");
    GlobMeaning(f, ".github/workflows/");
    var g := REBUILD_ALL_GLOBS;
    assert MatchSome(f, g) <==>
             MatchGlob(f, g[0]) || MatchGlob(f, g[1]) || MatchGlob(f, g[2]) || MatchGlob(f, g[3]) || MatchGlob(f, g[4]);
  }

  lemma DataRoomMeaning(f: string)
    ensures DataRoom(f) <==> "rust-backend/data-room/" <= f
  {
    hide MatchGlob;
    GlobMeaning(f, "rust-backend/data-room/");
    assert DATA_ROOM_GLOBS[0] == "rust-backend/data-room/" + "**";
  }

  lemma GoMeaning(f: string)
    ensures MatchSome(f, GO_GLOBS) <==> "go-backend/" <= f
  {
    hide MatchGlob;
    GlobMeaning(f, "go-backend/");
    assert GO_GLOBS[0] == "go-backend/" + "**";
  }

  lemma OwnMeaning(r: Row, f: string)
    ensures MatchSome(f, OwnGlobs(r)) <==>
            Below("rust-backend/services/" + r.name + "/", f) || Is("rust-backend/Dockerfile." + r.dockerfile, f)
  {
    hide MatchGlob;
    var dir, file := "rust-backend/services/" + r.name + "/", "rust-backend/Dockerfile." + r.dockerfile;
    if Literal(dir) { GlobMeaning(f, dir); }
    if Literal(file) { GlobMeaning(f, file); }
    var g := OwnGlobs(r);
    assert g[0] == dir + "**" && g[1] == file;
    assert MatchSome(f, g) <==> MatchGlob(f, g[0]) || MatchGlob(f, g[1]);
  }

  lemma CrateMeaning(c: string, f: string)
    ensures MatchGlob(f, CrateGlob(c)) <==> Below("rust-backend/crates/" + c + "/", f)
  {
    var dir := "rust-backend/crates/" + c + "/";
    if Literal(dir) { GlobMeaning(f, dir); }
  }

  /** The path lies in the service's directory, is its Dockerfile, or lies in a crate of its image. */
  ghost predicate UnderRust(co: Checkout, r: Row, f: string) {
    || Below("rust-backend/services/" + r.name + "/", f) || Is("rust-backend/Dockerfile." + r.dockerfile, f)
    || exists c :: InImage(co, r.name, c) && Below("rust-backend/crates/" + c + "/", f)
  }

  ghost predicate Under(t: Tables, co: Checkout, svc: string, f: string) {
    || (exists i :: 0 <= i < |t.rust| && t.rust[i].name == svc && UnderRust(co, t.rust[i], f))
    || (svc in t.go && "go-backend/" <= f)
  }

  lemma RustMeaning(co: Checkout, r: Row, f: string)
    ensures TouchesRust(co, r, f) <==> UnderRust(co, r, f)
  {
    hide MatchGlob, MatchSome, InImage, OwnGlobs, CrateGlob, Below, Is;
    OwnMeaning(r, f);
    forall c ensures MatchGlob(f, CrateGlob(c)) <==> Below("rust-backend/crates/" + c + "/", f) { CrateMeaning(c, f); }
  }

  lemma TouchesMeaning(t: Tables, co: Checkout, svc: string, f: string)
    ensures Touches(t, co, svc, f) <==> Under(t, co, svc, f)
  {
    hide MatchSome, TouchesRust, UnderRust;
    GoMeaning(f);
    forall i | 0 <= i < |t.rust| ensures TouchesRust(co, t.rust[i], f) <==> UnderRust(co, t.rust[i], f) {
      RustMeaning(co, t.rust[i], f);
    }
  }

  /** The decision in terms of paths: a service is rebuilt exactly when some counted path is one of
      the workspace-wide paths or some manifest is unreadable (and anything counted at all), or some
      counted path lies under the service itself or under a crate of its image. */
  lemma RebuiltIff(t: Tables, co: Checkout, files: set<string>, svc: string)
    ensures Rebuilt(t, co, files, svc) <==>
            (|| (svc in All(t) && files != {} && Unreadable(t, co))
             || (svc in All(t) && exists f :: f in Kept(files) && WorkspaceWide(f))
             || (exists f :: f in Kept(files) && Under(t, co, svc, f)))
  {
    hide Touches, Under, Unreadable, RebuildAll, WorkspaceWide, All, LockfileIsDataRoomOnly;
    forall f ensures Touches(t, co, svc, f) <==> Under(t, co, svc, f) { TouchesMeaning(t, co, svc, f); }
    forall f ensures RebuildAll(f) <==> WorkspaceWide(f) { WideMeaning(f); }
    if files != {} { KeptNonEmpty(files); }
  }

  predicate WorkspaceWide(f: string) {
    || f == LOCKFILE || f == "rust-backend/Cargo.toml" || "rust-backend/deployment/" <= f
    || "rust-backend/infra/" <= f || ".github/workflows/" <= f
  }

  lemma WideMeaning(f: string)
    ensures RebuildAll(f) <==> WorkspaceWide(f)
  {
    hide RebuildAll;
    RebuildAllMeaning(f);
  }

  /** Only listed services are ever returned, and nothing is returned for no change. */
  lemma OnlyListed(t: Tables, co: Checkout, files: set<string>, svc: string)
    requires Rebuilt(t, co, files, svc)
    ensures svc in All(t) && files != {}
  {
    hide TouchesRust, MatchSome, Unreadable, RebuildAll, LockfileIsDataRoomOnly;
  }

  /** The canonical list of services is the two tables together. */
  lemma ListedServices(svc: string)
    ensures svc in All(SERVICES) <==> svc in ALL_SERVICES
  {
    var names := RustNames(SERVICES.rust);
    assert names == ["indexer", "quoting-service", "orderbook", "mm-bot", "staging-mm-bot", "api-service", "token-info",
                     "auth-service", "price-charting", "cctp-relay", "gas-station", "hedge-signer", "market-sim",
                     "balance-monitor", "keeper", "twitter-service", "social-bot", "oracle-service"];
    RustNamesAreAll(SERVICES, svc);
    hide RustNames, All;
  }

  function RustNames(rows: seq<Row>): (r: seq<string>)
    ensures |r| == |rows| && forall i :: 0 <= i < |rows| ==> r[i] == rows[i].name
  {
    seq(|rows|, i requires 0 <= i < |rows| => rows[i].name)
  }

  lemma RustNamesAreAll(t: Tables, svc: string)
    ensures svc in All(t) <==> svc in RustNames(t.rust) || svc in t.go
  {
    if svc in All(t) && svc !in t.go {
      var i :| 0 <= i < |t.rust| && t.rust[i].name == svc;
      assert RustNames(t.rust)[i] == svc;
    }
  }

  // ----- more changed files -----

  lemma LockfileFacts()
    ensures RebuildAll(LOCKFILE) && !DataRoom(LOCKFILE) && InRustBackend(LOCKFILE)
  {
    hide RebuildAll, DataRoom;
    RebuildAllMeaning(LOCKFILE);
    DataRoomMeaning(LOCKFILE);
    assert LOCKFILE[13] == 'C' && "rust-backend/data-room/"[13] == 'd';
  }

  lemma RebuiltMonotone(t: Tables, co: Checkout, small: set<string>, big: set<string>, svc: string)
    requires Rebuilt(t, co, small, svc)
    requires Kept(small) <= Kept(big) || LOCKFILE in Kept(big)
    ensures Rebuilt(t, co, big, svc)
  {
    hide Touches, Unreadable, RebuildAll, LockfileIsDataRoomOnly, All, Kept;
    LockfileFacts();
    OnlyListed(t, co, small, svc);
  }

  /** A changed path outside data-room never removes a service. */
  lemma OtherPathsNeverRemove(t: Tables, co: Checkout, files: set<string>, p: string, svc: string)
    requires !DataRoom(p) && Rebuilt(t, co, files, svc)
    ensures Rebuilt(t, co, files + {p}, svc)
  {
    hide DataRoom, Rebuilt;
    if LockfileIsDataRoomOnly(files + {p}) {
      var f :| f in files + {p} && f != LOCKFILE && DataRoom(f);
      assert f in files;
      assert Kept(files) <= Kept(files + {p});
    } else {
      assert Kept(files) <= Kept(files + {p});
    }
    RebuiltMonotone(t, co, files, files + {p}, svc);
  }

  /** The lockfile is the only changed path under `rust-backend/`. */
  ghost predicate LockfileAlone(files: set<string>) {
    LOCKFILE in files && forall f :: f in files && InRustBackend(f) ==> f == LOCKFILE
  }

  lemma CarveOutIff(files: set<string>, p: string)
    requires DataRoom(p)
    ensures LOCKFILE in Kept(files) && LOCKFILE !in Kept(files + {p}) <==> LockfileAlone(files)
  {
    LockfileFacts();
    DataRoomInside();
    hide DataRoom;
    if LockfileAlone(files) {
      assert p in files + {p} && p != LOCKFILE;
      assert forall f :: f in files && f != LOCKFILE && DataRoom(f) ==> InRustBackend(f);
    }
  }

  lemma DataRoomInside()
    ensures forall f :: DataRoom(f) ==> InRustBackend(f)
  {
    hide DataRoom;
    forall f | DataRoom(f) ensures InRustBackend(f) {
      DataRoomMeaning(f);
      assert "rust-backend/" <= "rust-backend/data-room/";
    }
  }

  /** A changed data-room path removes a service exactly when the lockfile was alone under
      `rust-backend/` and nothing else in the change rebuilds that service. */
  lemma DataRoomPathRemovesIff(t: Tables, co: Checkout, files: set<string>, p: string, svc: string)
    requires DataRoom(p)
    ensures Rebuilt(t, co, files, svc) && !Rebuilt(t, co, files + {p}, svc) <==>
            (LockfileAlone(files) && svc in All(t) && !Rebuilt(t, co, files - {LOCKFILE} + {p}, svc))
  {
    LockfileFacts();
    hide DataRoom, Rebuilt;
    CarveOutIff(files, p);
    var more := files + {p};
    if LockfileAlone(files) {
      assert Kept(more) == files - {LOCKFILE} + {p};
      assert Kept(files - {LOCKFILE} + {p}) == files - {LOCKFILE} + {p};
      SameKept(t, co, more, files - {LOCKFILE} + {p}, svc);
      WholeFleet(t, co, files, svc);
    } else if Rebuilt(t, co, files, svc) {
      assert Kept(files) <= Kept(more) || LOCKFILE in Kept(more);
      RebuiltMonotone(t, co, files, more, svc);
    }
  }

  lemma SameKept(t: Tables, co: Checkout, a: set<string>, b: set<string>, svc: string)
    requires Kept(a) == Kept(b)
    ensures Rebuilt(t, co, a, svc) <==> Rebuilt(t, co, b, svc)
  {
    hide Touches, Unreadable, RebuildAll, Kept, All;
  }

  /** A counted lockfile rebuilds exactly the listed services. */
  lemma WholeFleet(t: Tables, co: Checkout, files: set<string>, svc: string)
    requires LOCKFILE in Kept(files)
    ensures Rebuilt(t, co, files, svc) <==> svc in All(t)
  {
    LockfileFacts();
    if Rebuilt(t, co, files, svc) { OnlyListed(t, co, files, svc); }
    hide Touches, Unreadable, RebuildAll, Kept, All, LockfileIsDataRoomOnly;
  }

  /** A bare lockfile change rebuilds the fleet; with readable manifests and a data-room path
      beside it, it rebuilds nothing. */
  lemma CarveOutInAction(co: Checkout, p: string, svc: string)
    requires !Unreadable(SERVICES, co)
    requires p == "rust-backend/data-room/Cargo.toml"
    ensures Rebuilt(SERVICES, co, {LOCKFILE}, svc) <==> svc in All(SERVICES)
    ensures !Rebuilt(SERVICES, co, {LOCKFILE, p}, svc)
  {
    hide Unreadable, Rebuilt, DataRoom, All;
    assert DataRoom(p) by {
      DataRoomMeaning(p);
      assert "rust-backend/data-room/" <= p;
    }
    CarveOutIff({LOCKFILE}, p);
    WholeFleet(SERVICES, co, {LOCKFILE}, svc);
    assert {LOCKFILE} + {p} == {LOCKFILE, p};
    assert Kept({LOCKFILE, p}) == {p};
    RebuiltIff(SERVICES, co, {LOCKFILE, p}, svc);
    DataRoomIsNoService(SERVICES, co, svc, p);
  }

  /** No path of data-room is watched: the fourteenth character tells it from every watched path. */
  lemma DataRoomIsNoService(t: Tables, co: Checkout, svc: string, p: string)
    requires "rust-backend/data-room/" <= p
    ensures !WorkspaceWide(p) && !Under(t, co, svc, p)
  {
    assert p[13] == 'd' && p[14] == 'a' && p[0] == 'r';
    assert "go-backend/"[0] == 'g' && ".github/workflows/"[0] == '.';
    assert LOCKFILE[13] == 'C' && "rust-backend/Cargo.toml"[13] == 'C' && "rust-backend/deployment/"[14] == 'e'
           && "rust-backend/infra/"[13] == 'i';
    forall r: Row ensures !UnderRust(co, r, p) { DataRoomIsNoRust(co, r, p); }
    hide UnderRust;
  }

  lemma DataRoomIsNoRust(co: Checkout, r: Row, p: string)
    requires "rust-backend/data-room/" <= p
    ensures !UnderRust(co, r, p)
  {
    assert p[13] == 'd';
    NotBelow("rust-backend/services/", r.name + "/", p);
    NotBelow("rust-backend/Dockerfile.", r.dockerfile, p);
    assert "rust-backend/services/" + r.name + "/" == "rust-backend/services/" + (r.name + "/");
    forall c: string ensures !Below("rust-backend/crates/" + c + "/", p) {
      NotBelow("rust-backend/crates/", c + "/", p);
      assert "rust-backend/crates/" + c + "/" == "rust-backend/crates/" + (c + "/");
    }
    hide Below, Is, InImage;
  }

  /** A watched path starts with a literal stem, and another stem never matches. */
  lemma NotBelow(stem: string, rest: string, p: string)
    requires Literal(stem) && |stem| > 13 && |p| > 13 && stem[13] != p[13]
    ensures !Below(stem + rest, p) && !Is(stem + rest, p)
  {
    hide Match, Collapse;
    assert (stem + rest)[13] == stem[13];
    assert stem + rest + "**" == stem + (rest + "**");
    if MatchGlob(p, stem + rest) { StemMatches(p, stem, rest); }
    if MatchGlob(p, stem + (rest + "**")) { StemMatches(p, stem, rest + "**"); }
  }
}
