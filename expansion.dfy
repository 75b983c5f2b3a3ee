/**
  expandPackage and APK.expandPackage: serve a package from the cache directory
  when it is there, otherwise fetch it, split it into its archives and, when a
  cache is configured, adopt the result into the cache; and apkCache.get, which
  runs that work once per URL.
*/
module Expansion {
  import opened Wrappers
  import opened CacheStore
  import Memo

  /** InstallablePackage: its name, its download URL and its index checksum. */
  datatype Installable = Installable(name: string, url: string, checksum: string)

  /** The outcomes, for one package, of the calls expandPackage makes into code outside this model. */
  datatype World = World(
    cacheDirFor: Result<string>,       // cacheDirForPackage(a.cache.dir, pkg)
    mkdirOk: bool,                     // os.MkdirAll(cacheDir, 0o755)
    fetchOk: bool,                     // a.FetchPackage(ctx, pkg)
    expanded: Option<(Handle, Dir)>)   // expandapk.ExpandApk: the handle and the temporary files it writes

  /** The calls expandPackage makes, in order. `Cache` is cachePackage. */
  datatype Call = Lookup | MakeDir | Fetch | Expand | Cache

  /** What one expansion returns, the files afterwards, and the calls it made. */
  datatype Flow = Flow(result: Result<Handle>, fs: Dir, calls: seq<Call>)

  /** A cache is configured and the package's cache directory already holds it. */
  ghost predicate Hit(hasCache: bool, w: World, fs: Dir, pkg: Installable)
  {
    hasCache && w.cacheDirFor.Ok? && CachedEntry(fs, pkg.checksum, w.cacheDirFor.value).Ok?
  }

  /** expandPackage; `hasCache` is `a.cache != nil`. */
  function ExpandFlow(hasCache: bool, w: World, fs: Dir, pkg: Installable): (f: Flow)
    ensures Hit(hasCache, w, fs, pkg) ==> f == Flow(CachedEntry(fs, pkg.checksum, w.cacheDirFor.value), fs, [Lookup])
    ensures f.result.Ok? && Fetch !in f.calls ==> Hit(hasCache, w, fs, pkg)
    ensures Cache in f.calls ==> hasCache
    ensures !hasCache ==> Lookup !in f.calls && Cache !in f.calls
    ensures !hasCache && f.result.Ok? ==> w.expanded.Some? && f.result == Ok(w.expanded.value.0)
  {
    if hasCache then
      match w.cacheDirFor
      case Err(e) => Flow(Err(e), fs, [])
      case Ok(cacheDir) =>
        var hit := CachedEntry(fs, pkg.checksum, cacheDir);
        if hit.Ok? then Flow(hit, fs, [Lookup])
        else if !w.mkdirOk then Flow(Err(MkdirFailed(cacheDir)), fs, [Lookup, MakeDir])
        else Fetched(true, cacheDir, w, fs, pkg, [Lookup, MakeDir])
    else Fetched(false, "", w, fs, pkg, [])
  }

  /** The fetch, expand and (with a cache) adopt steps after a miss. */
  function Fetched(hasCache: bool, cacheDir: string, w: World, fs: Dir, pkg: Installable, calls: seq<Call>): (f: Flow)
    ensures |f.calls| > |calls| && f.calls[..|calls|] == calls && f.calls[|calls|] == Fetch
    ensures Fetch in f.calls
    ensures Cache in f.calls ==> hasCache || Cache in calls
    ensures Lookup in f.calls ==> Lookup in calls
    ensures hasCache && f.result.Ok? ==>
      && w.expanded.Some? && f.calls == calls + [Fetch, Expand, Cache]
      && (f.fs, f.result.value) == Adopt(fs + w.expanded.value.1, w.expanded.value.0, cacheDir)
  {
    if !w.fetchOk then Flow(Err(FetchFailed(pkg.name)), fs, calls + [Fetch])
    else match w.expanded
      case None => Flow(Err(ExpandFailed(pkg.name)), fs, calls + [Fetch, Expand])
      case Some((h, written)) =>
        var fs1 := fs + written;
        if !hasCache then Flow(Ok(h), fs1, calls + [Fetch, Expand])
        else
          var (fs2, h2) := Adopt(fs1, h, cacheDir);
          Flow(Ok(h2), fs2, calls + [Fetch, Expand, Cache])
  }

  /**
    With a cache, a successful miss is a lookup, a directory, a fetch, an
    expansion and an adoption, and returns the adopted handle and files.
  */
  lemma MissAdopts(w: World, fs: Dir, pkg: Installable)
    requires w.cacheDirFor.Ok? && CachedEntry(fs, pkg.checksum, w.cacheDirFor.value).Err?
    ensures var f := ExpandFlow(true, w, fs, pkg);
      f.result.Ok? ==>
        && w.mkdirOk && w.fetchOk && w.expanded.Some?
        && f.calls == [Lookup, MakeDir, Fetch, Expand, Cache]
        && (f.fs, f.result.value) == Adopt(fs + w.expanded.value.1, w.expanded.value.0, w.cacheDirFor.value)
  {
    if w.mkdirOk {
      assert ExpandFlow(true, w, fs, pkg) == Fetched(true, w.cacheDirFor.value, w, fs, pkg, [Lookup, MakeDir]);
    }
  }

  /**
    After a miss that fetched, expanded and adopted a package, expanding it again
    is a cache hit: nothing is fetched and the same handle comes back.
  */
  lemma SecondExpansionHits(w: World, fs: Dir, pkg: Installable, w2: World)
    requires w.cacheDirFor.Ok? && w.mkdirOk && w.fetchOk && w.expanded.Some?
    requires CachedEntry(fs, pkg.checksum, w.cacheDirFor.value).Err?
    requires var (h, written) := w.expanded.value;
      var dir := w.cacheDirFor.value;
      && Describes(fs + written, h)
      && ParseChecksum(pkg.checksum) == Ok(h.controlHash)
      && h.controlFile !in AdoptedPaths(h, dir) && h.packageFile !in AdoptedPaths(h, dir)
      && h.tarFile !in AdoptedPaths(h, dir)
      && (h.signed ==> h.signatureFile !in AdoptedPaths(h, dir))
      && (!h.signed ==> SignaturePath(dir, h.controlHash) !in fs + written)
    requires w2.cacheDirFor == w.cacheDirFor
    ensures var first := ExpandFlow(true, w, fs, pkg);
      && first.result.Ok?
      && ExpandFlow(true, w2, first.fs, pkg) == Flow(first.result, first.fs, [Lookup])
  {
    var (h, written) := w.expanded.value;
    AdoptThenLookup(fs + written, h, w.cacheDirFor.value, pkg.checksum);
  }

  /** The result a method hands back, read as a value. */
  function Snapshot(r: Result<Expanded>): Result<Handle>
    reads if r.Ok? then {r.value} else {}
  {
    match r
    case Ok(exp) => Ok(exp.Value())
    case Err(e) => Err(e)
  }

  /** expandapk.ExpandApk, outside this model: its outcome is given by `w`. */
  method ExpandApk(disk: Disk, w: World) returns (r: Option<Expanded>)
    modifies disk
    ensures w.expanded.None? ==> r.None? && disk.files == old(disk.files)
    ensures w.expanded.Some? ==> && r.Some? && fresh(r.value) && r.value.Value() == w.expanded.value.0
                                 && disk.files == old(disk.files) + w.expanded.value.1
  {
    if w.expanded.None? {
      return None;
    }
    var exp := new Expanded();
    exp.Load(w.expanded.value.0);
    disk.Write(w.expanded.value.1);
    return Some(exp);
  }

  /** expandPackage: look in the cache, else fetch, expand and adopt. */
  method ExpandPackage(hasCache: bool, disk: Disk, w: World, pkg: Installable) returns (r: Result<Expanded>)
    modifies disk
    ensures r.Ok? ==> fresh(r.value)
    ensures Snapshot(r) == ExpandFlow(hasCache, w, old(disk.files), pkg).result
    ensures disk.files == ExpandFlow(hasCache, w, old(disk.files), pkg).fs
  {
    var cacheDir := "";
    if hasCache {
      if w.cacheDirFor.Err? {
        return Err(w.cacheDirFor.error);
      }
      cacheDir := w.cacheDirFor.value;
      var exp := CachedPackage(disk, pkg.checksum, cacheDir);
      if exp.Ok? {
        return exp;
      }
      if !w.mkdirOk {
        return Err(MkdirFailed(cacheDir));
      }
    }

    if !w.fetchOk {
      return Err(FetchFailed(pkg.name));
    }

    var exp := ExpandApk(disk, w);
    if exp.None? {
      return Err(ExpandFailed(pkg.name));
    }

    if !hasCache {
      return Ok(exp.value);
    }

    exp.value.CachePackage(disk, cacheDir);
    return Ok(exp.value);
  }

  /** apkCache: the results of expandPackage by package URL. */
  class ApkCache {
    var resps: map<string, Result<Expanded>>
    /** The URLs whose expansion ran, in order. */
    ghost var runs: seq<string>

    ghost predicate Valid()
      reads this
    {
      Memo.NoDuplicates(runs) && forall u :: u in runs <==> u in resps
    }

    constructor ()
      ensures Valid() && resps == map[] && runs == []
    {
      resps := map[];
      runs := [];
    }

    /**
      apkCache.get: the stored result for the package's URL, or else the result
      of expanding it (with the cache configured), which is stored.
    */
    method Get(disk: Disk, w: World, pkg: Installable) returns (r: Result<Expanded>)
      requires Valid()
      modifies this, disk
      ensures Valid()
      ensures (r, resps) == Memo.Serve(old(resps), pkg.url, r)
      ensures pkg.url in old(resps) ==> runs == old(runs) && disk.files == old(disk.files)
      ensures pkg.url !in old(resps) ==>
        && runs == old(runs) + [pkg.url]
        && Snapshot(r) == ExpandFlow(true, w, old(disk.files), pkg).result
        && disk.files == ExpandFlow(true, w, old(disk.files), pkg).fs
    {
      var u := pkg.url;
      if u in resps {
        return resps[u];
      }
      r := ExpandPackage(true, disk, w, pkg);
      resps := resps[u := r];
      runs := runs + [u];
    }
  }

  /**
    APK.expandPackage: without a cache the memo is bypassed and nothing is
    stored; with one the call goes through the shared apkCache.
  */
  method ApkExpandPackage(hasCache: bool, global: ApkCache, disk: Disk, w: World, pkg: Installable)
    returns (r: Result<Expanded>)
    requires global.Valid()
    modifies global, disk
    ensures global.Valid()
    ensures !hasCache ==>
      && global.resps == old(global.resps) && global.runs == old(global.runs)
      && Snapshot(r) == ExpandFlow(false, w, old(disk.files), pkg).result
      && disk.files == ExpandFlow(false, w, old(disk.files), pkg).fs
    ensures hasCache ==> (r, global.resps) == Memo.Serve(old(global.resps), pkg.url, r)
    ensures hasCache && pkg.url in old(global.resps) ==>
      && r == old(global.resps)[pkg.url]
      && global.runs == old(global.runs) && disk.files == old(disk.files)
    ensures hasCache && pkg.url !in old(global.resps) ==>
      && global.runs == old(global.runs) + [pkg.url]
      && Snapshot(r) == ExpandFlow(true, w, old(disk.files), pkg).result
      && disk.files == ExpandFlow(true, w, old(disk.files), pkg).fs
  {
    if !hasCache {
      r := ExpandPackage(false, disk, w, pkg);
      return;
    }
    r := global.Get(disk, w, pkg);
  }
}
