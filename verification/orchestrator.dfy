/** The top of internal/importer/importer.go: `importSite` runs the eight
    loaders over one extracted dump in a fixed order, skipping an entity
    whose file is not there and stopping at the first loader error;
    `ImportAll` extracts both archives, imports both sites and refreshes
    the `post_tags` view, stopping at the first failure;
    `refreshMaterializedViews` refreshes the view only when it exists.

    The file system is a parameter: which archives extract, which `.xml`
    paths a directory then holds (sorted, as `filepath.Glob` returns them)
    and the tokens of each file. */
module Orchestrator {
  import opened Wrappers
  import opened Schema
  import opened Xml
  import opened Loader

  // ----- one site -----

  /** The `entityType` each loader's file is looked up by. */
  function Hint(kind: Entity): (h: string)
    ensures h != ""
  {
    match kind
    case Users => "Users"
    case Posts => "Posts"
    case Comments => "Comments"
    case Badges => "Badges"
    case PostHistory => "PostHistory"
    case PostLinks => "PostLinks"
    case Tags => "Tags"
    case Votes => "Votes"
  }

  /** The order of `importOrder`. */
  const ImportOrder: seq<Entity> := [Users, Posts, Comments, Badges, PostHistory, PostLinks, Tags, Votes]

  /** A kind's position in `ImportOrder`. */
  function Rank(kind: Entity): nat {
    match kind
    case Users => 0
    case Posts => 1
    case Comments => 2
    case Badges => 3
    case PostHistory => 4
    case PostLinks => 5
    case Tags => 6
    case Votes => 7
  }

  /** One extracted site: its directory, the `.xml` paths in it and the
      tokens of every readable file. */
  datatype Site = Site(directory: string, files: seq<string>, contents: map<string, seq<Token>>)

  /** `findXmlFile(siteDir, entityType)`. */
  function Locate(site: Site, kind: Entity): Result<string, Error> {
    FindXmlFile(site.directory, site.files, Hint(kind))
  }

  /** One loader invocation: the entity and the file it was given. */
  datatype Call = Call(kind: Entity, path: string)

  /** The database and error a run ends with, and the loaders it invoked. */
  datatype Outcome = Outcome(run: Run<Tables>, calls: seq<Call>)

  /** `findXmlFile` for every entity of one site. */
  function Finder(site: Site): Entity -> Result<string, Error> {
    k => Locate(site, k)
  }

  /** The loader of an entity, run on a file of the site. */
  function Loaders(b: Backend, contents: map<string, seq<Token>>): (Entity, string, Tables) -> Run<Tables> {
    (k, path, s) => LoadEntity(k, b, path, contents, s)
  }

  /** The loop of `importSite` from `kinds[0]` on, given how files are found
      and how a loader runs. */
  function ImportEach(find: Entity -> Result<string, Error>, load: (Entity, string, Tables) -> Run<Tables>,
                      kinds: seq<Entity>, t: Tables): Outcome
    decreases |kinds|
  {
    if |kinds| == 0 then Outcome(Run(t, None), [])
    else
      var f := find(kinds[0]);
      if f.Err? then ImportEach(find, load, kinds[1..], t)
      else
        var r := load(kinds[0], f.value, t);
        if r.err.Some? then Outcome(Run(r.state, Some(EntityFailed(kinds[0], r.err.value))), [Call(kinds[0], f.value)])
        else
          var rest := ImportEach(find, load, kinds[1..], r.state);
          Outcome(rest.run, [Call(kinds[0], f.value)] + rest.calls)
  }

  /** `importSite`. */
  function ImportSite(site: Site, b: Backend, t: Tables): Outcome {
    ImportEach(Finder(site), Loaders(b, site.contents), ImportOrder, t)
  }

  // ----- reference semantics: look every file up, then run the loaders -----

  /** The loaders a site calls for when none fails: every kind whose file
      is found, in order, with that file. */
  function Planned(find: Entity -> Result<string, Error>, kinds: seq<Entity>): (p: seq<Call>)
    decreases |kinds|
    ensures forall i :: 0 <= i < |p| ==> p[i].kind in kinds && find(p[i].kind) == Ok(p[i].path)
    ensures forall k :: k in kinds && find(k).Ok? ==> exists i :: 0 <= i < |p| && p[i].kind == k
  {
    if |kinds| == 0 then []
    else
      var rest := Planned(find, kinds[1..]);
      assert forall k :: k in kinds[1..] ==> k in kinds;
      assert forall k :: k in kinds ==> k == kinds[0] || k in kinds[1..];
      var f := find(kinds[0]);
      if f.Ok? then
        var p := [Call(kinds[0], f.value)] + rest;
        assert forall i :: 0 <= i < |rest| ==> p[i + 1] == rest[i];
        assert forall k | k in kinds && find(k).Ok? :: exists i :: 0 <= i < |p| && p[i].kind == k by {
          forall k | k in kinds && find(k).Ok?
            ensures exists i :: 0 <= i < |p| && p[i].kind == k
          {
            if k == kinds[0] {
              assert p[0].kind == k;
            } else {
              var i :| 0 <= i < |rest| && rest[i].kind == k;
              assert p[i + 1].kind == k;
            }
          }
        }
        p
      else rest
  }

  /** Running the loaders of a plan one after the other, stopping at the
      first error and wrapping it with the failing entity. */
  function Execute(load: (Entity, string, Tables) -> Run<Tables>, plan: seq<Call>, t: Tables): (out: Outcome)
    decreases |plan|
    ensures |out.calls| <= |plan| && out.calls == plan[..|out.calls|]
    ensures out.run.err.None? ==> out.calls == plan
    ensures out.run.err.Some? ==>
      && |out.calls| > 0
      && out.run.err.value.EntityFailed?
      && out.run.err.value.kind == out.calls[|out.calls| - 1].kind
  {
    if |plan| == 0 then Outcome(Run(t, None), [])
    else
      var r := load(plan[0].kind, plan[0].path, t);
      if r.err.Some? then Outcome(Run(r.state, Some(EntityFailed(plan[0].kind, r.err.value))), [plan[0]])
      else
        var rest := Execute(load, plan[1..], r.state);
        var calls := [plan[0]] + rest.calls;
        assert calls == plan[..|calls|] by {
          assert plan == [plan[0]] + plan[1..];
        }
        Outcome(rest.run, calls)
  }

  /** The loop of `importSite` is a plan followed by its execution: a
      missing file only removes its entity from the plan. */
  lemma {:induction false} ImportEachIsExecute(find: Entity -> Result<string, Error>,
                                               load: (Entity, string, Tables) -> Run<Tables>,
                                               kinds: seq<Entity>, t: Tables)
    ensures ImportEach(find, load, kinds, t) == Execute(load, Planned(find, kinds), t)
    decreases |kinds|
  {
    if |kinds| > 0 {
      var f := find(kinds[0]);
      if f.Err? {
        ImportEachIsExecute(find, load, kinds[1..], t);
      } else {
        var r := load(kinds[0], f.value, t);
        if r.err.None? {
          ImportEachIsExecute(find, load, kinds[1..], r.state);
        }
      }
    }
  }

  /** `kinds` are listed in import order. */
  predicate KindsAscend(kinds: seq<Entity>) {
    forall i, j :: 0 <= i < j < |kinds| ==> Rank(kinds[i]) < Rank(kinds[j])
  }

  /** The entities of `calls` are listed in import order. */
  predicate CallsAscend(calls: seq<Call>) {
    forall i, j :: 0 <= i < j < |calls| ==> Rank(calls[i].kind) < Rank(calls[j].kind)
  }

  /** A call ranked below every call of an ascending sequence can lead it. */
  lemma ConsAscends(c: Call, calls: seq<Call>)
    requires CallsAscend(calls)
    requires forall i :: 0 <= i < |calls| ==> Rank(c.kind) < Rank(calls[i].kind)
    ensures CallsAscend([c] + calls)
  {
    var p := [c] + calls;
    forall i, j | 0 <= i < j < |p|
      ensures Rank(p[i].kind) < Rank(p[j].kind)
    {
      assert p[j] == calls[j - 1];
      if i > 0 {
        assert p[i] == calls[i - 1];
      }
    }
  }

  /** The plan of a sequence of kinds keeps their order. */
  lemma {:induction false} PlannedKeepsOrder(find: Entity -> Result<string, Error>, kinds: seq<Entity>)
    requires KindsAscend(kinds)
    ensures CallsAscend(Planned(find, kinds))
    decreases |kinds|
  {
    if |kinds| > 0 {
      var tail := kinds[1..];
      assert KindsAscend(tail) by {
        assert forall i :: 0 <= i < |tail| ==> tail[i] == kinds[i + 1];
      }
      PlannedKeepsOrder(find, tail);
      var rest := Planned(find, tail);
      if find(kinds[0]).Ok? {
        forall i | 0 <= i < |rest|
          ensures Rank(kinds[0]) < Rank(rest[i].kind)
        {
          var j :| 0 <= j < |tail| && tail[j] == rest[i].kind;
          assert kinds[j + 1] == tail[j];
        }
        ConsAscends(Call(kinds[0], find(kinds[0]).value), rest);
      }
    }
  }

  /** `Rank` is the position in `ImportOrder`. */
  lemma RankIndexesOrder(kind: Entity)
    ensures Rank(kind) < |ImportOrder| && ImportOrder[Rank(kind)] == kind
  {
  }

  /** The kinds of `ImportOrder` are listed in rank order and cover every entity. */
  lemma ImportOrderRanks()
    ensures KindsAscend(ImportOrder)
    ensures forall k :: k in ImportOrder
  {
    forall k ensures k in ImportOrder {
      assert ImportOrder[Rank(k)] == k by {
        RankIndexesOrder(k);
      }
    }
    forall i | 0 <= i < |ImportOrder|
      ensures Rank(ImportOrder[i]) == i
    {
      assert i == 0 || i == 1 || i == 2 || i == 3 || i == 4 || i == 5 || i == 6 || i == 7;
    }
  }

  /** The loaders `importSite` calls for on a site where none fails. */
  function SitePlan(site: Site): seq<Call> {
    Planned(Finder(site), ImportOrder)
  }

  /** The files `importSite` loads: exactly the entities whose file is
      found, each with that file, in the order Users, Posts, Comments,
      Badges, PostHistory, PostLinks, Tags, Votes. */
  lemma ImportSitePlan(site: Site)
    ensures forall k :: Locate(site, k).Ok? <==> exists i :: 0 <= i < |SitePlan(site)| && SitePlan(site)[i].kind == k
    ensures forall i :: 0 <= i < |SitePlan(site)| ==> Locate(site, SitePlan(site)[i].kind) == Ok(SitePlan(site)[i].path)
    ensures CallsAscend(SitePlan(site))
  {
    var find := Finder(site);
    var plan := SitePlan(site);
    assert forall k :: find(k) == Locate(site, k);
    ImportOrderRanks();
    forall k
      ensures Locate(site, k).Ok? <==> exists i :: 0 <= i < |plan| && plan[i].kind == k
    {
      if Locate(site, k).Ok? {
        assert k in ImportOrder && find(k).Ok?;
      } else {
        forall i | 0 <= i < |plan|
          ensures plan[i].kind != k
        {
          assert find(plan[i].kind).Ok?;
        }
      }
    }
    PlannedKeepsOrder(find, ImportOrder);
  }

  /** What `importSite` does with its plan: an entity without a file is
      skipped silently; the loaders run in plan order; the first loader
      error stops the loop and is returned wrapped with its entity, and no
      loader after it runs; without an error every planned loader ran. */
  lemma ImportSiteRuns(site: Site, b: Backend, t: Tables)
    ensures var out := ImportSite(site, b, t);
      var plan := Planned(Finder(site), ImportOrder);
      && |out.calls| <= |plan| && out.calls == plan[..|out.calls|]
      && (out.run.err.None? ==> out.calls == plan)
      && (out.run.err.Some? ==>
            |out.calls| > 0 && out.run.err.value.EntityFailed?
            && out.run.err.value.kind == out.calls[|out.calls| - 1].kind)
  {
    ImportEachIsExecute(Finder(site), Loaders(b, site.contents), ImportOrder, t);
  }

  // ----- what a run leaves alone -----

  /** `t` and `u` hold the same table for `kind`. */
  predicate SameTable(t: Tables, u: Tables, kind: Entity) {
    match kind
    case Users => u.users == t.users
    case Posts => u.posts == t.posts
    case Comments => u.comments == t.comments
    case Badges => u.badges == t.badges
    case PostHistory => u.postHistory == t.postHistory
    case PostLinks => u.postLinks == t.postLinks
    case Tags => u.tags == t.tags
    case Votes => u.votes == t.votes
  }

  /** The kinds of a sequence of calls. */
  function KindsOf(calls: seq<Call>): (ks: set<Entity>)
    ensures forall i :: 0 <= i < |calls| ==> calls[i].kind in ks
    ensures forall k :: k in ks ==> exists i :: 0 <= i < |calls| && calls[i].kind == k
  {
    set i | 0 <= i < |calls| :: calls[i].kind
  }

  /** Every loader run through `load` touches its own table only. */
  ghost predicate Framed(load: (Entity, string, Tables) -> Run<Tables>) {
    forall k, path, s :: SameExcept(s, load(k, path, s).state, k)
  }

  /** The importer's loaders touch their own table only. */
  lemma LoadersFramed(b: Backend, contents: map<string, seq<Token>>)
    ensures Framed(Loaders(b, contents))
  {
    forall k, path, s
      ensures SameExcept(s, Loaders(b, contents)(k, path, s).state, k)
    {
      LoadEntityFrame(k, b, path, contents, s);
    }
  }

  /** Two databases that agree on every table but one agree on each of the others. */
  lemma SameExceptOthers(t: Tables, u: Tables, kind: Entity, k: Entity)
    requires SameExcept(t, u, kind) && k != kind
    ensures SameTable(t, u, k)
  {
  }

  /** Executing a plan changes only the tables of the loaders it ran and
      never the view. */
  lemma {:induction false} ExecuteFrame(load: (Entity, string, Tables) -> Run<Tables>, plan: seq<Call>, t: Tables)
    requires Framed(load)
    ensures var out := Execute(load, plan, t);
      && out.run.state.postTags == t.postTags
      && forall k :: k !in KindsOf(out.calls) ==> SameTable(t, out.run.state, k)
    decreases |plan|
  {
    if |plan| > 0 {
      var r := load(plan[0].kind, plan[0].path, t);
      assert SameExcept(t, r.state, plan[0].kind);
      var out := Execute(load, plan, t);
      assert out.calls[0] == plan[0];
      if r.err.None? {
        ExecuteFrame(load, plan[1..], r.state);
        var rest := Execute(load, plan[1..], r.state);
        assert out.calls == [plan[0]] + rest.calls;
        forall k | k !in KindsOf(out.calls)
          ensures SameTable(t, out.run.state, k)
        {
          assert k != plan[0].kind;
          SameExceptOthers(t, r.state, plan[0].kind, k);
          forall i | 0 <= i < |rest.calls|
            ensures rest.calls[i].kind != k
          {
            assert out.calls[i + 1] == rest.calls[i];
          }
          assert k !in KindsOf(rest.calls);
        }
      } else {
        forall k | k !in KindsOf(out.calls)
          ensures SameTable(t, out.run.state, k)
        {
          SameExceptOthers(t, r.state, plan[0].kind, k);
        }
      }
    }
  }

  /** `importSite` leaves the view alone, and the table of every entity it
      did not load (its file was missing, or an earlier loader failed) as
      it was. */
  lemma ImportSiteFrame(site: Site, b: Backend, t: Tables)
    ensures var out := ImportSite(site, b, t);
      && out.run.state.postTags == t.postTags
      && forall k :: k !in KindsOf(out.calls) ==> SameTable(t, out.run.state, k)
  {
    var load := Loaders(b, site.contents);
    ImportEachIsExecute(Finder(site), load, ImportOrder, t);
    LoadersFramed(b, site.contents);
    ExecuteFrame(load, Planned(Finder(site), ImportOrder), t);
  }

  /** A directory with no `.xml` file imports nothing and succeeds. */
  lemma EmptySiteIsNoOp(site: Site, b: Backend, t: Tables)
    requires site.files == []
    ensures ImportSite(site, b, t) == Outcome(Run(t, None), [])
  {
    var find := Finder(site);
    ImportEachIsExecute(find, Loaders(b, site.contents), ImportOrder, t);
    assert forall k :: find(k).Err?;
    assert Planned(find, ImportOrder) == [];
  }

  // ----- refreshMaterializedViews -----

  /** `refreshMaterializedViews`: look the view up; refresh it when it
      exists, otherwise do nothing and succeed. */
  function RefreshViews(b: Backend, t: Tables): Run<Tables> {
    if !b.lookupOk then Run(t, Some(ViewLookupFailed))
    else match t.postTags
      case Absent => Run(t, None)
      case Present(_) => if b.refreshOk then Run(t.(postTags := Present(t.posts)), None) else Run(t, Some(RefreshFailed))
  }

  /** What the refresh does: it fails exactly when the lookup fails or an
      existing view cannot be refreshed, and a failure changes nothing; on
      success an existing view is rebuilt from the posts table and a missing
      one stays missing. It never creates or drops the view, never touches a
      table, and refreshing twice is refreshing once. */
  lemma RefreshIdempotent(b: Backend, t: Tables)
    ensures var r := RefreshViews(b, t);
      && (r.err.None? <==> b.lookupOk && (t.postTags.Absent? || b.refreshOk))
      && (r.err.Some? ==> r.state == t)
      && (!b.lookupOk ==> r.err == Some(ViewLookupFailed))
      && (b.lookupOk && r.err.Some? ==> r.err == Some(RefreshFailed))
      && (r.err.None? && t.postTags.Present? ==> r.state.postTags == Present(t.posts))
      && (r.state.postTags.Present? <==> t.postTags.Present?)
      && r.state.(postTags := t.postTags) == t
      && (r.err.None? ==> RefreshViews(b, r.state) == r)
  {
  }

  // ----- ImportAll -----

  /** What the importer sees of the disk: whether `7z` extracts an archive,
      the sorted `.xml` paths of a directory, and the tokens of each file. */
  datatype Disk = Disk(
    extracts: string -> bool,
    listing: string -> seq<string>,
    contents: map<string, seq<Token>>)

  /** The archive and directory names under the data directory. */
  function MainArchive(dataDir: string): string { dataDir + "/dba.stackexchange.com.7z" }
  function MainDir(dataDir: string): string { dataDir + "/dba.stackexchange.com" }
  function MetaArchive(dataDir: string): string { dataDir + "/dba.meta.stackexchange.com.7z" }
  function MetaDir(dataDir: string): string { dataDir + "/dba.meta.stackexchange.com" }

  function SiteAt(disk: Disk, dir: string): Site {
    Site(dir, disk.listing(dir), disk.contents)
  }

  /** `ImportAll`: extract the main and the meta archive, import both sites,
      refresh the view; the first failure ends the run. */
  function ImportAll(disk: Disk, dataDir: string, b: Backend, t: Tables): Outcome {
    if !disk.extracts(MainArchive(dataDir)) then Outcome(Run(t, Some(ExtractFailed(MainArchive(dataDir)))), [])
    else if !disk.extracts(MetaArchive(dataDir)) then Outcome(Run(t, Some(ExtractFailed(MetaArchive(dataDir)))), [])
    else
      var main := ImportSite(SiteAt(disk, MainDir(dataDir)), b, t);
      if main.run.err.Some? then main
      else
        var meta := ImportSite(SiteAt(disk, MetaDir(dataDir)), b, main.run.state);
        if meta.run.err.Some? then Outcome(meta.run, main.calls + meta.calls)
        else Outcome(RefreshViews(b, meta.run.state), main.calls + meta.calls)
  }

  /** The stages of `ImportAll` and where each failure stops it: a failed
      extraction changes nothing and runs no loader; a failed main import
      is returned as it is, before the meta site is looked at; a failed meta
      import is returned without the refresh; after two clean imports the
      result is the refresh's. A clean run loads every planned file of both
      sites, main first, and then leaves the view refreshed if it exists and
      absent if it does not. */
  lemma ImportAllSpec(disk: Disk, dataDir: string, b: Backend, t: Tables)
    ensures var out := ImportAll(disk, dataDir, b, t);
      var mainSite := SiteAt(disk, MainDir(dataDir));
      var metaSite := SiteAt(disk, MetaDir(dataDir));
      && (!disk.extracts(MainArchive(dataDir)) ==>
            out == Outcome(Run(t, Some(ExtractFailed(MainArchive(dataDir)))), []))
      && (disk.extracts(MainArchive(dataDir)) && !disk.extracts(MetaArchive(dataDir)) ==>
            out == Outcome(Run(t, Some(ExtractFailed(MetaArchive(dataDir)))), []))
      && (disk.extracts(MainArchive(dataDir)) && disk.extracts(MetaArchive(dataDir))
          && ImportSite(mainSite, b, t).run.err.Some? ==>
            out == ImportSite(mainSite, b, t))
      && (disk.extracts(MainArchive(dataDir)) && disk.extracts(MetaArchive(dataDir))
          && ImportSite(mainSite, b, t).run.err.None?
          && ImportSite(metaSite, b, ImportSite(mainSite, b, t).run.state).run.err.Some? ==>
            out.run == ImportSite(metaSite, b, ImportSite(mainSite, b, t).run.state).run)
      && (disk.extracts(MainArchive(dataDir)) && disk.extracts(MetaArchive(dataDir))
          && ImportSite(mainSite, b, t).run.err.None?
          && ImportSite(metaSite, b, ImportSite(mainSite, b, t).run.state).run.err.None? ==>
            out.run == RefreshViews(b, ImportSite(metaSite, b, ImportSite(mainSite, b, t).run.state).run.state))
      && (out.run.err.None? ==>
            && out.calls == Planned(Finder(mainSite), ImportOrder) + Planned(Finder(metaSite), ImportOrder)
            && out.run.state.postTags == (if t.postTags.Present? then Present(out.run.state.posts) else Absent))
      && (out.run.err.Some? ==>
            out.run.err.value.ExtractFailed? || out.run.err.value.EntityFailed?
            || out.run.err.value == ViewLookupFailed || out.run.err.value == RefreshFailed)
  {
    var mainSite := SiteAt(disk, MainDir(dataDir));
    var metaSite := SiteAt(disk, MetaDir(dataDir));
    if disk.extracts(MainArchive(dataDir)) && disk.extracts(MetaArchive(dataDir)) {
      ImportSiteRuns(mainSite, b, t);
      ImportSiteFrame(mainSite, b, t);
      var main := ImportSite(mainSite, b, t);
      if main.run.err.None? {
        ImportSiteRuns(metaSite, b, main.run.state);
        ImportSiteFrame(metaSite, b, main.run.state);
      }
    }
  }
}
