// Pushing an archive and the parents it needs to a remote (crates/cli/src/cmd/data/push.rs).
module Push {
  import opened Common

  /** Canonical path of an archive file. */
  type Location = string

  /**
   The local file system: every path that exists with the file it leads to, and for each file the parent
   references in its header (None when it cannot be read).
   */
  datatype FileSystem = FileSystem(
    canonical: map<string, Location>, parents: map<Location, Option<seq<string>>>,
    fileName: Location -> Option<string>, directory: Location -> string,
    join: (string, string) -> string, isAbsolute: string -> bool)
  {
    ghost predicate Valid() { forall p :: p in canonical ==> canonical[p] in parents }

    /** The paths that a reference in an archive in `dir` may mean, in the order in which they are tried. */
    function Readings(dir: string, reference: string): seq<string> {
      (if isAbsolute(reference) then [reference] else []) + [join(dir, reference), reference]
    }

    /** The first reading that exists is a path of `q`. */
    ghost predicate LeadsTo(dir: string, reference: string, q: Location) {
      exists i {:trigger Readings(dir, reference)[i]} ::
        && 0 <= i < |Readings(dir, reference)|
        && Readings(dir, reference)[i] in canonical && canonical[Readings(dir, reference)[i]] == q
        && forall j {:trigger Readings(dir, reference)[j]} :: 0 <= j < i ==> Readings(dir, reference)[j] !in canonical
    }

    function ResolveParent(dir: string, reference: string): string {
      if isAbsolute(reference) && reference in canonical then reference
      else if join(dir, reference) in canonical then join(dir, reference)
      else reference
    }

    /** Reference number `k` of archive `c` leads to a file that is here, namely `q`. */
    ghost predicate Refers(c: Location, k: nat, q: Location) {
      && c in parents && parents[c].Some? && k < |parents[c].value|
      && LeadsTo(directory(c), parents[c].value[k], q)
    }

    /** `q` is a locally available parent of `c`. */
    ghost predicate Edge(c: Location, q: Location) { exists k :: Refers(c, k, q) }

    predicate IsHeld(c: Location, held: set<string>) { fileName(c).Some? && fileName(c).value in held }

    ghost predicate DistinctNames() {
      forall c, d {:trigger fileName(c), fileName(d)} ::
        c in parents && d in parents && fileName(c).Some? && fileName(c) == fileName(d) ==> c == d
    }

    /** The remote lacks no locally available parent of anything it holds. */
    ghost predicate Closed(held: set<string>) {
      forall c, q {:trigger Edge(c, q)} :: Edge(c, q) && IsHeld(c, held) ==> IsHeld(q, held)
    }

    /** Each of these archives has one of the others for a parent. */
    ghost predicate Cyclic(zone: set<Location>) {
      zone != {} && forall c {:trigger c in zone} :: c in zone ==> exists q :: q in zone && q != c && Edge(c, q)
    }

    ghost predicate Acyclic(zone: set<Location>) { forall part: set<Location> :: part <= zone ==> !Cyclic(part) }

    /** Within `zone`, `rank` goes down from child to parent: no cycles but self-references. */
    ghost predicate Ranked(rank: Location -> nat, zone: set<Location>) {
      forall c, q {:trigger Edge(c, q)} :: Edge(c, q) && q != c && c in zone && q in zone ==> rank(q) < rank(c)
    }

    /** A chain of references from `t` over archives that the remote lacks. */
    ghost predicate Chain(held: set<string>, t: Location, chain: seq<Location>) {
      && chain != [] && chain[0] == t
      && (forall k {:trigger chain[k]} :: 0 <= k < |chain| ==> chain[k] in parents && !IsHeld(chain[k], held))
      && (forall k {:trigger chain[k]} :: 0 < k < |chain| ==> Edge(chain[k - 1], chain[k]))
    }

    ghost predicate Reaches(held: set<string>, t: Location, c: Location) {
      exists chain :: Chain(held, t, chain) && chain[|chain| - 1] == c
    }

    /** What a push of `t` is about: the missing archives that `t` leads to, `t` included. */
    ghost function Needed(held: set<string>, t: Location): set<Location> {
      set c | c in parents && Reaches(held, t, c)
    }

    /** An archive that can be sent: it has a name that the remote takes, and a header that can be read. */
    predicate Uploadable(c: Location, refused: set<string>) {
      fileName(c).Some? && fileName(c).value !in refused && c in parents && parents[c].Some?
    }

    ghost predicate AllUploadable(zone: set<Location>, refused: set<string>) {
      forall c {:trigger c in zone} :: c in zone ==> Uploadable(c, refused)
    }
  }

  /** The path chosen is one of the file that the reference leads to, and no path at all if it leads nowhere. */
  lemma ResolveFinds(fs: FileSystem, dir: string, reference: string, q: Location)
    ensures var p := fs.ResolveParent(dir, reference);
      fs.LeadsTo(dir, reference, q) <==> p in fs.canonical && fs.canonical[p] == q
  {
    var readings := fs.Readings(dir, reference);
    var n := |readings|;
    assert readings[n - 2] == fs.join(dir, reference) && readings[n - 1] == reference;
    assert fs.isAbsolute(reference) ==> readings[0] == reference;
  }

  /** A file that lies beside an archive and is not shadowed by an absolute path is the parent meant. */
  lemma BesideIsParent(fs: FileSystem, c: Location, k: nat)
    requires c in fs.parents && fs.parents[c].Some? && k < |fs.parents[c].value|
    requires var reference := fs.parents[c].value[k];
      && fs.join(fs.directory(c), reference) in fs.canonical
      && (fs.isAbsolute(reference) ==> reference !in fs.canonical)
    ensures fs.Edge(c, fs.canonical[fs.join(fs.directory(c), fs.parents[c].value[k])])
  {
    var dir, reference := fs.directory(c), fs.parents[c].value[k];
    var n := |fs.Readings(dir, reference)|;
    assert fs.Readings(dir, reference)[n - 2] == fs.join(dir, reference);
    assert fs.Refers(c, k, fs.canonical[fs.join(dir, reference)]);
  }

  /** What a push starts from and is about; `rank` orders the archives concerned, when they can be ordered. */
  datatype Plan = Plan(start: set<string>, zone: set<Location>, rank: Location -> nat)

  function Names(log: seq<string>): (r: set<string>)
    ensures forall n :: n in r <==> n in log
  {
    set n | n in log
  }

  /** After every single upload so far the remote was closed. */
  ghost predicate ClosedThroughout(fs: FileSystem, start: set<string>, log: seq<string>) {
    forall k: nat {:trigger log[..k]} :: k <= |log| ==> fs.Closed(start + Names(log[..k]))
  }

  /** A remote endpoint: the names it holds, and the order in which they were uploaded. */
  class Remote {
    var held: set<string>
    var log: seq<string>
    const refused: set<string>

    constructor (held: set<string>, refused: set<string>)
      ensures this.held == held && log == [] && this.refused == refused
    {
      this.held, this.log, this.refused := held, [], refused;
    }

    method Exists(name: string) returns (found: bool)
      ensures found == (name in held)
    {
      found := name in held;
    }

    method Upload(name: string) returns (r: Result<()>)
      modifies this
      ensures r.Ok? <==> name !in refused
      ensures held == if r.Ok? then old(held) + {name} else old(held)
      ensures log == if r.Ok? then old(log) + [name] else old(log)
    {
      if name in refused {
        return Err(IoError);
      }
      held := held + {name};
      log := log + [name];
      return Ok(());
    }
  }

  /** Missing parents of anything concerned are concerned. */
  ghost predicate ZoneClosed(fs: FileSystem, plan: Plan) {
    forall c, q {:trigger fs.Edge(c, q)} ::
      fs.Edge(c, q) && c in plan.zone && !fs.IsHeld(q, plan.start) ==> q in plan.zone
  }

  ghost predicate InScope(fs: FileSystem, plan: Plan, c: Location) {
    ZoneClosed(fs, plan) && (c in plan.zone || fs.IsHeld(c, plan.start))
  }

  ghost predicate NamesIn(fs: FileSystem, zone: set<Location>, log: seq<string>) {
    forall k {:trigger log[k]} :: 0 <= k < |log| ==> exists c :: c in zone && fs.fileName(c) == Some(log[k])
  }

  predicate NoRepeats(log: seq<string>) { forall i, j :: 0 <= i < j < |log| ==> log[i] != log[j] }

  /** What has been uploaded: archives concerned, none refused, none twice. */
  ghost predicate LogOk(fs: FileSystem, plan: Plan, refused: set<string>, log: seq<string>) {
    && NamesIn(fs, plan.zone, log) && NoRepeats(log)
    && forall n {:trigger n in refused} :: n in refused ==> n !in log
  }

  /** What is known of the archives visited: each is held, or still in progress further down the chain than `c`. */
  ghost predicate Above(fs: FileSystem, plan: Plan, visited: set<Location>, held: set<string>, c: Location) {
    forall d {:trigger d in visited} :: d in visited ==> fs.IsHeld(d, held) || plan.rank(d) > plan.rank(c)
  }

  /** The situation in which a call for `c` keeps the remote closed. */
  ghost predicate Orderly(
    fs: FileSystem, plan: Plan, visited: set<Location>, held: set<string>, log: seq<string>, c: Location)
  {
    && fs.DistinctNames() && fs.Ranked(plan.rank, plan.zone) && InScope(fs, plan, c)
    && plan.start <= held && ClosedThroughout(fs, plan.start, log)
    && (c in visited || fs.IsHeld(c, held) || Above(fs, plan, visited, held, c))
  }

  /** The situation while the parents of `c` are being pushed. */
  ghost predicate InProgress(
    fs: FileSystem, plan: Plan, visited: set<Location>, held: set<string>, log: seq<string>, c: Location)
  {
    && fs.DistinctNames() && fs.Ranked(plan.rank, plan.zone) && InScope(fs, plan, c)
    && plan.start <= held && ClosedThroughout(fs, plan.start, log)
    && !fs.IsHeld(c, held)
    && forall d {:trigger d in visited} ::
      d in visited ==> d == c || fs.IsHeld(d, held) || plan.rank(d) > plan.rank(c)
  }

  /** What a completed call leaves behind, on any graph. */
  ghost predicate Complete(
    fs: FileSystem, before: set<Location>, after: set<Location>, heldBefore: set<string>, heldAfter: set<string>)
  {
    && (forall c {:trigger c in after} ::
      c in after && c !in before ==> c in fs.parents && fs.IsHeld(c, heldAfter))
    && (forall c, q {:trigger fs.Edge(c, q)} ::
      fs.Edge(c, q) && c in after && c !in before && !fs.IsHeld(c, heldBefore) ==> q in after)
    && (forall c {:trigger fs.IsHeld(c, heldAfter)} ::
      c in fs.parents && fs.IsHeld(c, heldAfter) && !fs.IsHeld(c, heldBefore) ==> c in after && c !in before)
    && (forall c {:trigger c in after} ::
      c in after && c !in before && !fs.IsHeld(c, heldBefore) && c in fs.parents ==> fs.parents[c].Some?)
  }

  /** Sends an archive that the remote lacks, its parents first. */
  method PushArchive(fs: FileSystem, path: string, remote: Remote, visited: set<Location>, ghost plan: Plan)
    returns (r: Result<()>, pushed: set<Location>)
    requires fs.Valid() && remote.held == plan.start + Names(remote.log)
    modifies remote
    ensures remote.held == plan.start + Names(remote.log)
    ensures visited <= pushed && old(remote.held) <= remote.held
    ensures path !in fs.canonical ==> r.Err? && remote.log == old(remote.log)
    ensures r.Ok? ==> path in fs.canonical && fs.canonical[path] in pushed
    ensures r.Ok? && fs.DistinctNames() ==> Complete(fs, visited, pushed, old(remote.held), remote.held)
    ensures path in fs.canonical && InScope(fs, plan, fs.canonical[path]) ==>
      && (fs.AllUploadable(plan.zone, remote.refused) ==> r.Ok?)
      && (fs.DistinctNames() && LogOk(fs, plan, remote.refused, old(remote.log)) ==>
        LogOk(fs, plan, remote.refused, remote.log))
    ensures path in fs.canonical ==>
      Orderly(fs, plan, visited, old(remote.held), old(remote.log), fs.canonical[path]) ==>
      ClosedThroughout(fs, plan.start, remote.log)
    decreases fs.parents.Keys - visited, 0
  {
    hide Orderly, ClosedThroughout, Complete, InProgress, LogOk, FileSystem.DistinctNames;
    hide FileSystem.AllUploadable, InScope;
    pushed := visited;
    if path !in fs.canonical {
      return Err(IoError), pushed;
    }
    var canonical := fs.canonical[path];
    OrderlySoFar(fs, plan, visited, remote.held, remote.log, canonical);
    NothingToDo(fs, canonical, visited, remote.held);
    if canonical in pushed {
      return Ok(()), pushed;
    }
    MissingInScope(fs, plan, remote.refused, remote.held, canonical);
    pushed := pushed + {canonical};
    if fs.fileName(canonical) == None {
      return Err(FormatError), pushed;
    }
    var name := fs.fileName(canonical).value;
    var alreadyExists := remote.Exists(name);
    if alreadyExists {
      return Ok(()), pushed;
    }
    match fs.parents[canonical] {
      case None => return Err(FormatError), pushed;
      case Some(references) =>
        Enter(fs, plan, visited, remote.held, remote.log, canonical);
        r, pushed := PushParents(fs, canonical, references, remote, pushed, plan);
        if r.Err? {
          return;
        }
        ghost var before, held := remote.log, remote.held;
        r := remote.Upload(name);
        if r.Ok? {
          assert remote.held == plan.start + Names(remote.log);
          UploadCompletes(fs, canonical, name, visited, pushed, old(remote.held), held);
          StillMissing(fs, canonical, name, visited, pushed, old(remote.held), held);
          LogMore(fs, plan, remote.refused, before, canonical, name);
          UploadKeepsClosed(
            fs, plan, canonical, name, visited, pushed, old(remote.held), old(remote.log), held, before);
        }
    }
  }

  /** The parents of `c`, which itself has just been marked as visited. */
  method PushParents(
    fs: FileSystem, c: Location, references: seq<string>, remote: Remote, visited: set<Location>, ghost plan: Plan)
    returns (r: Result<()>, pushed: set<Location>)
    requires fs.Valid() && c in fs.parents && fs.parents[c] == Some(references) && c in visited
    requires remote.held == plan.start + Names(remote.log)
    modifies remote
    ensures remote.held == plan.start + Names(remote.log)
    ensures visited <= pushed && old(remote.held) <= remote.held
    ensures r.Ok? ==> forall q {:trigger fs.Edge(c, q)} :: fs.Edge(c, q) ==> q in pushed
    ensures r.Ok? && fs.DistinctNames() ==> Complete(fs, visited, pushed, old(remote.held), remote.held)
    ensures ZoneClosed(fs, plan) && c in plan.zone ==>
      && (fs.AllUploadable(plan.zone, remote.refused) ==> r.Ok?)
      && (fs.DistinctNames() && LogOk(fs, plan, remote.refused, old(remote.log)) ==>
        LogOk(fs, plan, remote.refused, remote.log))
    ensures InProgress(fs, plan, visited, old(remote.held), old(remote.log), c) ==>
      ClosedThroughout(fs, plan.start, remote.log)
    decreases fs.parents.Keys - visited, 1
  {
    hide ClosedThroughout, FileSystem.Closed, Complete, InProgress, Orderly, LogOk, FileSystem.DistinctNames;
    hide FileSystem.AllUploadable, InScope, ZoneClosed, FileSystem.Refers, FileSystem.ResolveParent;
    RefersWithin(fs, c);
    pushed := visited;
    var k := 0;
    SoFar(fs, plan, c, visited, remote.held, remote.log);
    while k < |references|
      invariant k <= |references|
      invariant remote.held == plan.start + Names(remote.log)
      invariant visited <= pushed && old(remote.held) <= remote.held
      invariant forall j: nat, q {:trigger fs.Refers(c, j, q)} :: j < k && fs.Refers(c, j, q) ==> q in pushed
      invariant fs.DistinctNames() ==> Complete(fs, visited, pushed, old(remote.held), remote.held)
      invariant ZoneClosed(fs, plan) && c in plan.zone && fs.DistinctNames() ==>
        LogOk(fs, plan, remote.refused, old(remote.log)) ==> LogOk(fs, plan, remote.refused, remote.log)
      invariant InProgress(fs, plan, visited, old(remote.held), old(remote.log), c) ==>
        ClosedThroughout(fs, plan.start, remote.log)
    {
      var parent := fs.ResolveParent(fs.directory(c), references[k]);
      Resolves(fs, c, k, parent);
      if parent in fs.canonical {
        ghost var q, mid, held := fs.canonical[parent], pushed, remote.held;
        ParentInScope(fs, plan, c, q);
        OrderlyForParent(
          fs, plan, visited, old(remote.held), old(remote.log), c, pushed, remote.held, remote.log, q);
        r, pushed := PushArchive(fs, parent, remote, pushed, plan);
        if r.Err? {
          return;
        }
        CompleteTransitive(fs, visited, mid, pushed, old(remote.held), held, remote.held);
      }
      k := k + 1;
    }
    return Ok(()), pushed;
  }

  // ---------------------------------------------------------------------------------------------
  // Small steps

  lemma RefersWithin(fs: FileSystem, c: Location)
    requires c in fs.parents && fs.parents[c].Some?
    ensures forall k: nat, q {:trigger fs.Refers(c, k, q)} :: fs.Refers(c, k, q) ==> k < |fs.parents[c].value|
  {
  }

  lemma Resolves(fs: FileSystem, c: Location, k: nat, parent: string)
    requires c in fs.parents && fs.parents[c].Some? && k < |fs.parents[c].value|
    requires parent == fs.ResolveParent(fs.directory(c), fs.parents[c].value[k])
    ensures forall q {:trigger fs.Refers(c, k, q)} ::
      fs.Refers(c, k, q) <==> parent in fs.canonical && fs.canonical[parent] == q
    ensures parent in fs.canonical ==> fs.Edge(c, fs.canonical[parent])
  {
    forall q ensures fs.Refers(c, k, q) <==> parent in fs.canonical && fs.canonical[parent] == q {
      ResolveFinds(fs, fs.directory(c), fs.parents[c].value[k], q);
    }
    assert parent in fs.canonical ==> fs.Refers(c, k, fs.canonical[parent]);
  }

  lemma SoFar(fs: FileSystem, plan: Plan, c: Location, visited: set<Location>, held: set<string>, log: seq<string>)
    ensures Complete(fs, visited, visited, held, held)
    ensures InProgress(fs, plan, visited, held, log, c) ==> ClosedThroughout(fs, plan.start, log)
  {
  }

  /** What a call for `c` comes to send is concerned, and can be sent if everything concerned can. */
  lemma MissingInScope(fs: FileSystem, plan: Plan, refused: set<string>, held: set<string>, c: Location)
    requires plan.start <= held
    ensures InScope(fs, plan, c) && !fs.IsHeld(c, held) ==>
      ZoneClosed(fs, plan) && c in plan.zone && (fs.AllUploadable(plan.zone, refused) ==> fs.Uploadable(c, refused))
  {
  }

  lemma ParentInScope(fs: FileSystem, plan: Plan, c: Location, q: Location)
    requires fs.Edge(c, q)
    ensures ZoneClosed(fs, plan) && c in plan.zone ==> InScope(fs, plan, q)
  {
  }

  lemma OrderlyForParent(
    fs: FileSystem, plan: Plan, visited: set<Location>, held: set<string>, log: seq<string>, c: Location,
    now: set<Location>, heldNow: set<string>, logNow: seq<string>, q: Location)
    requires fs.Edge(c, q) && visited <= now && held <= heldNow && c in visited
    requires fs.DistinctNames() ==> Complete(fs, visited, now, held, heldNow)
    requires InProgress(fs, plan, visited, held, log, c) ==> ClosedThroughout(fs, plan.start, logNow)
    ensures InProgress(fs, plan, visited, held, log, c) ==> Orderly(fs, plan, now, heldNow, logNow, q)
  {
    hide ClosedThroughout;
    if InProgress(fs, plan, visited, held, log, c) {
      if q !in now && !fs.IsHeld(q, heldNow) {
        forall d {:trigger d in now} | d in now ensures fs.IsHeld(d, heldNow) || plan.rank(d) > plan.rank(q) {
          assert plan.rank(q) < plan.rank(c);
          if d in visited { assert d == c || fs.IsHeld(d, held) || plan.rank(d) > plan.rank(c); }
        }
      }
    }
  }

  lemma CompleteTransitive(
    fs: FileSystem, a: set<Location>, b: set<Location>, c: set<Location>,
    h0: set<string>, h1: set<string>, h2: set<string>)
    requires a <= b <= c && h0 <= h1 <= h2
    requires fs.DistinctNames() ==> Complete(fs, a, b, h0, h1) && Complete(fs, b, c, h1, h2)
    ensures fs.DistinctNames() ==> Complete(fs, a, c, h0, h2)
  {
    hide FileSystem.DistinctNames;
    if fs.DistinctNames() {
      forall x, q {:trigger fs.Edge(x, q)} | fs.Edge(x, q) && x in c && x !in a && !fs.IsHeld(x, h0)
        ensures q in c
      {
        if !fs.IsHeld(x, h1) { assert x in b ==> q in b; }
      }
      forall x {:trigger fs.IsHeld(x, h2)} | x in fs.parents && fs.IsHeld(x, h2) && !fs.IsHeld(x, h0)
        ensures x in c && x !in a
      {
        if fs.IsHeld(x, h1) { assert x in b; }
      }
      forall x {:trigger x in c} | x in c && x !in a && !fs.IsHeld(x, h0) && x in fs.parents
        ensures fs.parents[x].Some?
      {
        if fs.IsHeld(x, h1) { assert x in b; }
      }
    }
  }

  lemma UploadCompletes(
    fs: FileSystem, c: Location, name: string, visited: set<Location>, pushed: set<Location>,
    held0: set<string>, held: set<string>)
    requires c in fs.parents && fs.parents[c].Some? && c !in visited && visited + {c} <= pushed
    requires fs.fileName(c) == Some(name) && held0 <= held
    requires forall q {:trigger fs.Edge(c, q)} :: fs.Edge(c, q) ==> q in pushed
    requires fs.DistinctNames() ==> Complete(fs, visited + {c}, pushed, held0, held)
    ensures fs.DistinctNames() ==> Complete(fs, visited, pushed, held0, held + {name})
  {
    if fs.DistinctNames() {
      var after := held + {name};
      forall x {:trigger fs.IsHeld(x, after)} | x in fs.parents && fs.IsHeld(x, after) && !fs.IsHeld(x, held0)
        ensures x in pushed && x !in visited
      {
        if !fs.IsHeld(x, held) { assert fs.fileName(x) == fs.fileName(c); }
      }
    }
  }

  /** Pushing the parents has not sent the archive itself. */
  lemma StillMissing(
    fs: FileSystem, c: Location, name: string, visited: set<Location>, pushed: set<Location>,
    held0: set<string>, held: set<string>)
    requires c in fs.parents && fs.fileName(c) == Some(name) && name !in held0
    requires fs.DistinctNames() ==> Complete(fs, visited + {c}, pushed, held0, held)
    ensures fs.DistinctNames() ==> name !in held
  {
    assert fs.IsHeld(c, held) <==> name in held;
  }

  lemma LogMore(
    fs: FileSystem, plan: Plan, refused: set<string>, log: seq<string>, c: Location, name: string)
    requires fs.fileName(c) == Some(name) && name !in refused
    ensures c in plan.zone && LogOk(fs, plan, refused, log) && name !in log ==>
      LogOk(fs, plan, refused, log + [name])
  {
    if c in plan.zone && LogOk(fs, plan, refused, log) && name !in log {
      var more := log + [name];
      forall k {:trigger more[k]} | 0 <= k < |more|
        ensures exists c :: c in plan.zone && fs.fileName(c) == Some(more[k])
      {
        if k < |log| { assert more[k] == log[k]; }
      }
    }
  }

  lemma OrderlySoFar(
    fs: FileSystem, plan: Plan, visited: set<Location>, held: set<string>, log: seq<string>, c: Location)
    ensures Orderly(fs, plan, visited, held, log, c) ==> ClosedThroughout(fs, plan.start, log)
  {
  }

  lemma NothingToDo(fs: FileSystem, c: Location, visited: set<Location>, held: set<string>)
    requires c in fs.parents
    ensures Complete(fs, visited, visited, held, held)
    ensures fs.IsHeld(c, held) ==> Complete(fs, visited, visited + {c}, held, held)
  {
  }

  /** Once `c` is marked, the situation for it is the one in which its parents are pushed. */
  lemma Enter(
    fs: FileSystem, plan: Plan, visited: set<Location>, held: set<string>, log: seq<string>, c: Location)
    requires c !in visited && !fs.IsHeld(c, held)
    ensures Orderly(fs, plan, visited, held, log, c) ==> InProgress(fs, plan, visited + {c}, held, log, c)
  {
    hide ClosedThroughout;
  }

  /** Uploading an archive whose parents have been pushed keeps the remote closed. */
  lemma UploadKeepsClosed(
    fs: FileSystem, plan: Plan, c: Location, name: string, visited: set<Location>, pushed: set<Location>,
    held0: set<string>, log0: seq<string>, held: set<string>, log: seq<string>)
    requires c in fs.parents && c !in visited && visited + {c} <= pushed && fs.fileName(c) == Some(name)
    requires held0 <= held && name !in held0 && held == plan.start + Names(log)
    requires forall q {:trigger fs.Edge(c, q)} :: fs.Edge(c, q) ==> q in pushed
    requires fs.DistinctNames() ==> Complete(fs, visited + {c}, pushed, held0, held)
    requires InProgress(fs, plan, visited + {c}, held0, log0, c) ==> ClosedThroughout(fs, plan.start, log)
    ensures Orderly(fs, plan, visited, held0, log0, c) ==> ClosedThroughout(fs, plan.start, log + [name])
  {
    if Orderly(fs, plan, visited, held0, log0, c) {
      Enter(fs, plan, visited, held0, log0, c);
      assert log[..|log|] == log;
      assert fs.Closed(plan.start + Names(log[..|log|]));
      assert held + {name} == plan.start + Names(log + [name]);
      hide ClosedThroughout;
      forall x, q {:trigger fs.Edge(x, q)} | fs.Edge(x, q) && fs.IsHeld(x, held + {name})
        ensures fs.IsHeld(q, held + {name})
      {
        if x == c && q != c { ParentIsHeld(fs, plan, c, q, visited, pushed, held0, log0, held); }
      }
      LogGrows(fs, plan.start, log, name);
    }
  }

  lemma ParentIsHeld(
    fs: FileSystem, plan: Plan, c: Location, q: Location, visited: set<Location>, pushed: set<Location>,
    held0: set<string>, log0: seq<string>, held: set<string>)
    requires Orderly(fs, plan, visited, held0, log0, c) && c !in visited && !fs.IsHeld(c, held0)
    requires fs.Edge(c, q) && q != c && q in pushed && held0 <= held
    requires Complete(fs, visited + {c}, pushed, held0, held)
    ensures fs.IsHeld(q, held)
  {
    hide ClosedThroughout, FileSystem.Edge;
    if q in visited {
      assert fs.IsHeld(q, held0) || plan.rank(q) > plan.rank(c);
    }
  }

  lemma LogGrows(fs: FileSystem, start: set<string>, log: seq<string>, name: string)
    requires ClosedThroughout(fs, start, log) && fs.Closed(start + Names(log + [name]))
    ensures ClosedThroughout(fs, start, log + [name])
  {
    var more := log + [name];
    forall k: nat {:trigger more[..k]} | k <= |more| ensures fs.Closed(start + Names(more[..k])) {
      if k <= |log| { assert more[..k] == log[..k]; } else { assert more[..k] == more; }
    }
  }

  // ---------------------------------------------------------------------------------------------
  // What a push is about

  lemma NeededIsClosed(fs: FileSystem, start: set<string>, t: Location, rank: Location -> nat)
    requires fs.Valid()
    ensures ZoneClosed(fs, Plan(start, fs.Needed(start, t), rank))
    ensures t in fs.parents && !fs.IsHeld(t, start) ==> t in fs.Needed(start, t)
  {
    forall c, q {:trigger fs.Edge(c, q)} | fs.Edge(c, q) && c in fs.Needed(start, t) && !fs.IsHeld(q, start)
      ensures q in fs.Needed(start, t)
    {
      var chain :| fs.Chain(start, t, chain) && chain[|chain| - 1] == c;
      ChainMore(fs, start, t, chain, q);
    }
    if t in fs.parents && !fs.IsHeld(t, start) { assert fs.Chain(start, t, [t]); }
  }

  lemma ChainMore(fs: FileSystem, start: set<string>, t: Location, chain: seq<Location>, q: Location)
    requires fs.Valid() && fs.Chain(start, t, chain) && fs.Edge(chain[|chain| - 1], q) && !fs.IsHeld(q, start)
    ensures fs.Chain(start, t, chain + [q]) && q in fs.parents && fs.Reaches(start, t, q)
  {
    var k :| fs.Refers(chain[|chain| - 1], k, q);
    hide FileSystem.Edge;
    var longer := chain + [q];
    forall k {:trigger longer[k]} | 0 < k < |longer| ensures fs.Edge(longer[k - 1], longer[k]) {
      if k < |chain| { assert longer[k] == chain[k] && longer[k - 1] == chain[k - 1]; }
    }
    assert longer[|longer| - 1] == q;
  }

  /** A finished push has visited everything it is about. */
  lemma {:induction false} ChainIsPushed(
    fs: FileSystem, start: set<string>, t: Location, chain: seq<Location>, pushed: set<Location>, held: set<string>)
    requires fs.Chain(start, t, chain) && t in pushed && Complete(fs, {}, pushed, start, held)
    ensures chain[|chain| - 1] in pushed
    decreases |chain|
  {
    hide FileSystem.Edge;
    var n := |chain| - 1;
    if n > 0 {
      assert fs.Chain(start, t, chain[..n]);
      ChainIsPushed(fs, start, t, chain[..n], pushed, held);
      assert chain[..n][n - 1] == chain[n - 1] && chain[n] == chain[n];
      assert fs.Edge(chain[n - 1], chain[n]);
    }
  }

  /** A finished push has sent exactly what it is about. */
  lemma AllSent(
    fs: FileSystem, plan: Plan, t: Location, refused: set<string>, pushed: set<Location>, held: set<string>,
    log: seq<string>)
    requires plan.zone == fs.Needed(plan.start, t) && t in pushed && Complete(fs, {}, pushed, plan.start, held)
    requires held == plan.start + Names(log) && LogOk(fs, plan, refused, log)
    ensures Sent(fs, plan.zone, log) && fs.AllUploadable(plan.zone, refused)
  {
    forall c {:trigger c in plan.zone} | c in plan.zone
      ensures fs.fileName(c).Some? && fs.fileName(c).value in log && fs.Uploadable(c, refused)
    {
      var chain :| fs.Chain(plan.start, t, chain) && chain[|chain| - 1] == c;
      ChainIsPushed(fs, plan.start, t, chain, pushed, held);
      assert fs.IsHeld(c, held) && !fs.IsHeld(c, plan.start);
      assert fs.fileName(c).value in Names(log);
    }
  }

  /** The log lists these archives, each once, and nothing else. */
  ghost predicate Sent(fs: FileSystem, zone: set<Location>, log: seq<string>) {
    && NamesIn(fs, zone, log) && NoRepeats(log)
    && forall c {:trigger c in zone} :: c in zone ==> fs.fileName(c).Some? && fs.fileName(c).value in log
  }

  /** Where no subset is cyclic, the archives can be ranked. */
  lemma {:induction false} RankExists(fs: FileSystem, zone: set<Location>) returns (rank: Location -> nat)
    requires fs.Acyclic(zone)
    ensures fs.Ranked(rank, zone)
    decreases |zone|
  {
    hide FileSystem.Edge;
    if zone == {} {
      rank := _ => 0;
    } else {
      assert !fs.Cyclic(zone);
      var c :| c in zone && forall q :: q in zone && q != c ==> !fs.Edge(c, q);
      var rest := RankExists(fs, zone - {c});
      rank := x => if x == c then 0 else rest(x) + 1;
    }
  }

  // ---------------------------------------------------------------------------------------------
  // The whole push

  /** All that a finished push visited is held, and so are the parents of all that it uploaded: on any graph. */
  lemma FinallyClosed(fs: FileSystem, pushed: set<Location>, start: set<string>, held: set<string>)
    requires fs.DistinctNames() && fs.Closed(start) && start <= held && Complete(fs, {}, pushed, start, held)
    ensures fs.Closed(held)
  {
    forall c, q {:trigger fs.Edge(c, q)} | fs.Edge(c, q) && fs.IsHeld(c, held)
      ensures fs.IsHeld(q, held)
    {
      if fs.IsHeld(c, start) {
        assert fs.IsHeld(q, start);
      } else {
        assert c in pushed;
        assert q in pushed;
      }
    }
  }

  /**
   An order of uploads that keeps the remote closed throughout puts every parent before its child.
   */
  lemma ClosedOnlyIfParentsFirst(
    fs: FileSystem, start: set<string>, log: seq<string>, c: Location, q: Location, i: nat)
    requires fs.DistinctNames() && ClosedThroughout(fs, start, log) && q in fs.parents
    requires fs.Edge(c, q) && q != c && !fs.IsHeld(q, start)
    requires i < |log| && fs.fileName(c) == Some(log[i])
    ensures exists j :: 0 <= j < i && fs.fileName(q) == Some(log[j])
  {
    assert fs.Closed(start + Names(log[..i + 1]));
    assert log[..i + 1][i] == log[i];
    assert fs.IsHeld(q, start + Names(log[..i + 1]));
    var j :| 0 <= j < i + 1 && log[j] == fs.fileName(q).value;
    assert fs.fileName(c) != fs.fileName(q);
  }

  lemma CycleParent(fs: FileSystem, cycle: set<Location>, c: Location) returns (q: Location)
    requires fs.Cyclic(cycle) && c in cycle
    ensures q in cycle && q != c && fs.Edge(c, q)
  {
    hide FileSystem.Edge;
    q :| q in cycle && q != c && fs.Edge(c, q);
  }

  /** No member of a cycle of missing archives can be uploaded while keeping the remote closed. */
  lemma {:induction false} CycleBreaksClosure(
    fs: FileSystem, start: set<string>, log: seq<string>, cycle: set<Location>, c: Location, i: nat)
    requires fs.DistinctNames() && fs.Cyclic(cycle) && c in cycle
    requires forall d {:trigger d in cycle} :: d in cycle ==> d in fs.parents && !fs.IsHeld(d, start)
    requires i < |log| && fs.fileName(c) == Some(log[i])
    ensures !ClosedThroughout(fs, start, log)
    decreases i
  {
    hide ClosedThroughout, FileSystem.DistinctNames, FileSystem.Cyclic, FileSystem.Edge, FileSystem.IsHeld;
    if ClosedThroughout(fs, start, log) {
      var q := CycleParent(fs, cycle, c);
      ClosedOnlyIfParentsFirst(fs, start, log, c, q, i);
      var j :| 0 <= j < i && fs.fileName(q) == Some(log[j]);
      CycleBreaksClosure(fs, start, log, cycle, q, j);
    }
  }

  lemma NeededIsMissing(fs: FileSystem, start: set<string>, t: Location, d: Location)
    requires d in fs.Needed(start, t)
    ensures d in fs.parents && !fs.IsHeld(d, start)
  {
    hide FileSystem.Edge;
    var chain :| fs.Chain(start, t, chain) && chain[|chain| - 1] == d;
    assert chain[|chain| - 1] == d;
  }

  lemma CycleMember(fs: FileSystem, cycle: set<Location>) returns (c: Location)
    requires fs.Cyclic(cycle)
    ensures c in cycle
  {
    hide FileSystem.Edge;
    assert cycle != {};
    c :| c in cycle;
  }

  lemma SomeCycle(fs: FileSystem, zone: set<Location>) returns (cycle: set<Location>, c: Location)
    requires !fs.Acyclic(zone)
    ensures cycle <= zone && fs.Cyclic(cycle) && c in cycle
  {
    hide FileSystem.Cyclic;
    cycle :| cycle <= zone && fs.Cyclic(cycle);
    c := CycleMember(fs, cycle);
  }

  lemma SentCycle(fs: FileSystem, start: set<string>, t: Location, log: seq<string>)
    requires fs.DistinctNames() && Sent(fs, fs.Needed(start, t), log) && !fs.Acyclic(fs.Needed(start, t))
    ensures !ClosedThroughout(fs, start, log)
  {
    hide ClosedThroughout, FileSystem.DistinctNames, FileSystem.Needed, FileSystem.Cyclic, FileSystem.Acyclic;
    hide FileSystem.IsHeld, NamesIn;
    var cycle, c := SomeCycle(fs, fs.Needed(start, t));
    forall d {:trigger d in cycle} | d in cycle ensures d in fs.parents && !fs.IsHeld(d, start) {
      NeededIsMissing(fs, start, t, d);
    }
    assert c in fs.Needed(start, t);
    var i :| 0 <= i < |log| && log[i] == fs.fileName(c).value;
    CycleBreaksClosure(fs, start, log, cycle, c, i);
  }

  /**
   Parents first. The push ends on any graph of parent references. With distinct file names it succeeds exactly when
   everything it is about can be sent, and has then sent exactly that. From a closed remote, success leaves the remote
   closed; it was closed after every single upload if and only if no set of archives among those sent is cyclic; and
   without a cycle it was closed after every upload even if the push failed.
   */
  method PushTarget(fs: FileSystem, target: string, remote: Remote) returns (r: Result<()>)
    requires fs.Valid() && remote.log == []
    modifies remote
    ensures remote.held == old(remote.held) + Names(remote.log)
    ensures target !in fs.canonical ==> r.Err? && remote.log == []
    ensures target in fs.canonical && fs.DistinctNames() ==>
      var start, zone := old(remote.held), fs.Needed(old(remote.held), fs.canonical[target]);
      && (r.Ok? <==> fs.AllUploadable(zone, remote.refused))
      && (r.Ok? ==> fs.IsHeld(fs.canonical[target], remote.held) && Sent(fs, zone, remote.log))
      && (r.Ok? ==> forall c, q {:trigger fs.Edge(c, q)} ::
            fs.Edge(c, q) && c in zone ==> fs.IsHeld(q, remote.held))
      && (fs.Closed(start) && r.Ok? ==>
        fs.Closed(remote.held) && (ClosedThroughout(fs, start, remote.log) <==> fs.Acyclic(zone)))
      && (fs.Closed(start) && fs.Acyclic(zone) ==> ClosedThroughout(fs, start, remote.log))
  {
    hide ClosedThroughout, FileSystem.Closed, FileSystem.DistinctNames, FileSystem.Ranked, FileSystem.Needed;
    hide FileSystem.Acyclic, FileSystem.AllUploadable, LogOk, Orderly, Complete, Sent, InScope;
    ghost var start := remote.held;
    ghost var plan := Plan(start, {}, _ => 0);
    assert remote.held == start + Names([]);
    if target in fs.canonical {
      var t := fs.canonical[target];
      ghost var zone := fs.Needed(start, t);
      plan := plan.(zone := zone);
      if fs.Acyclic(zone) {
        ghost var rank := RankExists(fs, zone);
        plan := plan.(rank := rank);
      }
      Begins(fs, plan, t, remote.refused);
    }
    var pushed;
    r, pushed := PushArchive(fs, target, remote, {}, plan);
    if target in fs.canonical && fs.DistinctNames() && r.Ok? {
      ghost var t := fs.canonical[target];
      AllSent(fs, plan, t, remote.refused, pushed, remote.held, remote.log);
      TargetHeld(fs, pushed, start, remote.held, t);
      ParentsHeld(fs, start, t, remote.held, remote.log);
      if fs.Closed(start) {
        FinallyClosed(fs, pushed, start, remote.held);
        if !fs.Acyclic(plan.zone) { SentCycle(fs, start, t, remote.log); }
      }
    }
  }

  lemma TargetHeld(fs: FileSystem, pushed: set<Location>, start: set<string>, held: set<string>, t: Location)
    requires Complete(fs, {}, pushed, start, held) && t in pushed
    ensures fs.IsHeld(t, held)
  {
  }

  /** Every parent of an archive that was sent is on the remote in the end. */
  lemma ParentsHeld(fs: FileSystem, start: set<string>, t: Location, held: set<string>, log: seq<string>)
    requires fs.Valid() && Sent(fs, fs.Needed(start, t), log) && held == start + Names(log)
    ensures forall c, q {:trigger fs.Edge(c, q)} ::
      fs.Edge(c, q) && c in fs.Needed(start, t) ==> fs.IsHeld(q, held)
  {
    NeededIsClosed(fs, start, t, _ => 0);
    hide FileSystem.Needed, FileSystem.Edge;
  }

  /** Before anything is sent, everything is in order. */
  lemma Begins(fs: FileSystem, plan: Plan, t: Location, refused: set<string>)
    requires fs.Valid() && t in fs.parents && plan.zone == fs.Needed(plan.start, t)
    ensures InScope(fs, plan, t) && LogOk(fs, plan, refused, [])
    ensures fs.DistinctNames() && fs.Closed(plan.start) && fs.Ranked(plan.rank, plan.zone) ==>
      Orderly(fs, plan, {}, plan.start, [], t)
  {
    NeededIsClosed(fs, plan.start, t, plan.rank);
    assert plan.start + Names([]) == plan.start;
    assert fs.Closed(plan.start) ==> ClosedThroughout(fs, plan.start, []);
    hide FileSystem.Needed, FileSystem.Ranked, FileSystem.Closed, ClosedThroughout, FileSystem.DistinctNames;
  }

  // ---------------------------------------------------------------------------------------------
  // A cycle

  /** Two archives that refer to each other. */
  function TwoArchives(): FileSystem {
    FileSystem(map["a" := "a", "b" := "b"], map["a" := Some(["b"]), "b" := Some(["a"])],
               c => Some(c), _ => "", (_, p) => p, _ => false)
  }

  lemma TwoArchivesAre()
    ensures var fs := TwoArchives();
      && fs.Valid() && fs.canonical == map["a" := "a", "b" := "b"] && fs.parents.Keys == {"a", "b"}
      && fs.Uploadable("a", {}) && fs.Uploadable("b", {})
      && !fs.IsHeld("a", {}) && !fs.IsHeld("b", {})
  {
  }

  lemma TwoArchivesNamed()
    ensures TwoArchives().DistinctNames() && TwoArchives().Closed({})
  {
    hide FileSystem.Edge;
  }

  lemma TwoArchivesEdges()
    ensures TwoArchives().Edge("a", "b") && TwoArchives().Edge("b", "a")
  {
    BesideIsParent(TwoArchives(), "a", 0);
    BesideIsParent(TwoArchives(), "b", 0);
  }

  lemma TwoArchivesChains()
    ensures TwoArchives().Chain({}, "a", ["a"]) && TwoArchives().Chain({}, "a", ["a", "b"])
  {
    TwoArchivesAre();
    TwoArchivesEdges();
    hide FileSystem.Edge, TwoArchives, FileSystem.IsHeld;
  }

  lemma PairCycle(fs: FileSystem, a: Location, b: Location)
    requires a != b && fs.Edge(a, b) && fs.Edge(b, a)
    ensures fs.Cyclic({a, b})
  {
    hide FileSystem.Edge;
  }

  lemma TwoArchivesCycle()
    ensures var fs := TwoArchives();
      && fs.Valid() && fs.DistinctNames() && fs.Closed({}) && "a" in fs.canonical && fs.canonical["a"] == "a"
      && fs.Cyclic({"a", "b"}) && {"a", "b"} <= fs.Needed({}, "a")
      && fs.AllUploadable(fs.Needed({}, "a"), {})
  {
    var fs := TwoArchives();
    TwoArchivesAre();
    TwoArchivesNamed();
    TwoArchivesEdges();
    TwoArchivesChains();
    hide TwoArchives, FileSystem.Edge, FileSystem.Chain, FileSystem.Uploadable, FileSystem.Closed, FileSystem.Valid,
      FileSystem.DistinctNames, FileSystem.Cyclic;
    PairCycle(fs, "a", "b");
    assert ["a"][|["a"]| - 1] == "a" && ["a", "b"][|["a", "b"]| - 1] == "b";
    assert fs.Reaches({}, "a", "a") && fs.Reaches({}, "a", "b");
  }

  /** Both are sent and the push succeeds, but after the first upload the remote lacks a parent of what it holds. */
  method PushCycle() returns (r: Result<()>, remote: Remote)
    ensures r.Ok? && TwoArchives().Closed({}) && !ClosedThroughout(TwoArchives(), {}, remote.log)
  {
    hide *;
    TwoArchivesCycle();
    remote := new Remote({}, {});
    r := PushTarget(TwoArchives(), "a", remote);
    CyclePart(TwoArchives(), {"a", "b"}, TwoArchives().Needed({}, "a"));
  }

  lemma CyclePart(fs: FileSystem, part: set<Location>, zone: set<Location>)
    requires fs.Cyclic(part) && part <= zone
    ensures !fs.Acyclic(zone)
  {
    hide FileSystem.Cyclic;
  }
}
