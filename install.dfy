/**
  InstallPackages: install expanded packages strictly in the given order, record
  which package last wrote each path, then add every newly installed package to
  the installed database with only the files it still owns.

  Expansion happens concurrently in apko; here its outcome for each index
  arrives as a value of the job, and the consumer and the finalization run
  sequentially over the indices as apko's single consumer goroutine does.
*/
module Install {
  import opened Wrappers
  import opened Encoding
  import opened Tar
  import opened CacheStore
  import Expansion

  /** apk.Package: the database record read from .PKGINFO. */
  datatype PackageData = PackageData(
    name: string, version: string, buildDate: int,
    installedSize: nat, size: nat, checksum: seq<byte>)

  /**
    packageInfo: the record takes name, version and build date from .PKGINFO,
    its "size" as the installed size, the expansion's total size as the size and
    the control hash as the checksum.
  */
  function PackageInfo(exp: Handle): (r: Option<PackageData>)
    ensures r.Some? <==> exp.pkgInfo.Some?
  {
    match exp.pkgInfo
    case None => None
    case Some(info) =>
      Some(PackageData(info.name, info.version, info.buildDate, info.size, exp.size, exp.controlHash))
  }

  /**
    For a package served from the cache, the database record's checksum is the
    index checksum's hash and its size is the size of the three cached files.
  */
  lemma CachedPackageInfo(fs: Dir, chk: string, cacheDir: string)
    requires CachedEntry(fs, chk, cacheDir).Ok? && PackageInfo(CachedEntry(fs, chk, cacheDir).value).Some?
    ensures var h := CachedEntry(fs, chk, cacheDir).value;
      var d := PackageInfo(h).value;
      && ParseChecksum(chk) == Ok(d.checksum)
      && d.size == h.controlSize + h.signatureSize + h.packageSize
      && d.installedSize == fs[h.controlFile].pkgInfo.value.size
  {
    var h := CachedEntry(fs, chk, cacheDir).value;
    var sum := ParseChecksum(chk).value;
    assert h.controlFile == ControlPath(cacheDir, sum);
  }

  /**
    For any expanded package whose handle agrees with its files (a fresh
    expansion or one served from the cache), the record's checksum is the control
    hash, its size the stat sizes of the control, signature and data archives,
    and its name, version, build date and installed size those of the .PKGINFO
    in the control archive.
  */
  lemma DescribedPackageInfo(fs: Dir, h: Handle)
    requires Describes(fs, h)
    ensures PackageInfo(h).Some? <==> fs[h.controlFile].pkgInfo.Some?
    ensures PackageInfo(h).Some? ==>
      var info := fs[h.controlFile].pkgInfo.value;
      PackageInfo(h).value == PackageData(
        info.name, info.version, info.buildDate, info.size,
        fs[h.controlFile].size + (if h.signed then fs[h.signatureFile].size else 0) + fs[h.packageFile].size,
        h.controlHash)
  {
  }

  /**
    A `*Package` pointer: the record together with the identity of its
    allocation, the InstallPackages call and the index that created it. Owners
    are compared by this identity, as apko compares pointers.
  */
  datatype Id = Id(call: nat, index: nat)
  datatype Pkg = Pkg(id: Id, data: PackageData)

  /** One entry of the installed database: a package and the files recorded for it. */
  datatype DbEntry = DbEntry(pkg: Pkg, files: seq<Header>)

  /** The package names isInstalledPackage finds in the installed database. */
  function Names(db: seq<DbEntry>): set<string>
  {
    set e | e in db :: e.pkg.data.name
  }

  /**
    One package to install: the package, its expansion (None when the expansion
    failed) and the headers installPackage returns for it (None when it fails).
  */
  datatype Job = Job(pkg: Expansion.Installable, expanded: Option<Handle>, installed: Option<seq<Header>>)

  /** installAPKFiles records an owner for every entry it writes except directories. */
  predicate Claims(h: Header)
  {
    h.typeflag != TypeDir
  }

  /** The ownership map after a package wrote `hdrs`: last write wins. */
  function Claim(owners: map<string, Pkg>, hdrs: seq<Header>, p: Pkg): map<string, Pkg>
    decreases |hdrs|
  {
    if hdrs == [] then owners
    else Claim(if Claims(hdrs[0]) then owners[hdrs[0].name := p] else owners, hdrs[1..], p)
  }

  /** `hdrs` holds a non-directory entry named `n`. */
  predicate Writes(hdrs: seq<Header>, n: string)
  {
    exists h :: h in hdrs && Claims(h) && h.name == n
  }

  /** A package owns the paths it wrote; every other entry is left as it was. */
  lemma {:induction false} ClaimOwner(owners: map<string, Pkg>, hdrs: seq<Header>, p: Pkg, n: string)
    ensures n in Claim(owners, hdrs, p) <==> n in owners || Writes(hdrs, n)
    ensures Writes(hdrs, n) ==> Claim(owners, hdrs, p)[n] == p
    ensures !Writes(hdrs, n) && n in owners ==> Claim(owners, hdrs, p)[n] == owners[n]
    decreases |hdrs|
  {
    if hdrs != [] {
      var owners1 := if Claims(hdrs[0]) then owners[hdrs[0].name := p] else owners;
      ClaimOwner(owners1, hdrs[1..], p, n);
      if Writes(hdrs[1..], n) {
        var h :| h in hdrs[1..] && Claims(h) && h.name == n;
        assert h in hdrs;
      }
      if Writes(hdrs, n) && !Writes(hdrs[1..], n) {
        var h :| h in hdrs && Claims(h) && h.name == n;
        if h != hdrs[0] {
          assert h in hdrs[1..];
        }
      }
      if Claims(hdrs[0]) {
        assert Writes(hdrs, hdrs[0].name) by { assert hdrs[0] in hdrs; }
      }
    }
  }

  /** The consumer's slices and the ownership map. */
  datatype Consumed = Consumed(infos: seq<Option<Pkg>>, allFiles: seq<seq<Header>>, owners: map<string, Pkg>)

  /** Whether the consumer went through every index or stopped with an error at one. */
  datatype Stop = Done | Failed(at: nat, error: Error)

  datatype Run = Run(state: Consumed, stop: Stop)

  /** The slots from `i` on have not been written. */
  predicate Untouched(c: Consumed, n: nat, i: nat)
  {
    |c.infos| == n && |c.allFiles| == n
    && forall j :: i <= j < n ==> c.infos[j] == None && c.allFiles[j] == []
  }

  /** The consumer goroutine, from index `i` on. */
  function ConsumeFrom(call: nat, installed: set<string>, jobs: seq<Job>, i: nat, c: Consumed): (r: Run)
    requires i <= |jobs| && Untouched(c, |jobs|, i)
    ensures |r.state.infos| == |jobs| && |r.state.allFiles| == |jobs|
    ensures r.stop.Failed? ==> i <= r.stop.at < |jobs|
    decreases |jobs| - i
  {
    if i == |jobs| then Run(c, Done)
    else
      var job := jobs[i];
      match job.expanded
      case None => Run(c, Failed(i, ExpansionMissing(job.pkg.name)))
      case Some(exp) =>
        if job.pkg.name in installed then ConsumeFrom(call, installed, jobs, i + 1, c)
        else match PackageInfo(exp)
          case None => Run(c, Failed(i, PkgInfoUnreadable(job.pkg.name)))
          case Some(data) =>
            var p := Pkg(Id(call, i), data);
            var c1 := c.(infos := c.infos[i := Some(p)]);
            match job.installed
            case None => Run(c1, Failed(i, InstallFailed(job.pkg.name)))
            case Some(hdrs) =>
              ConsumeFrom(call, installed, jobs, i + 1,
                          c1.(allFiles := c1.allFiles[i := hdrs], owners := Claim(c1.owners, hdrs, p)))
  }

  /** The first index the consumer did not complete. */
  function Reached(r: Run, n: nat): nat
  {
    if r.stop.Done? then n else r.stop.at
  }

  /**
    The consumer stops at the first index whose expansion is missing, whose
    .PKGINFO is unreadable or whose installation fails; every expansion before
    that index is present, and nothing after it is touched.
  */
  lemma {:induction false} ConsumeStops(call: nat, installed: set<string>, jobs: seq<Job>, i: nat, c: Consumed)
    requires i <= |jobs| && Untouched(c, |jobs|, i)
    ensures var r := ConsumeFrom(call, installed, jobs, i, c);
      && i <= Reached(r, |jobs|) <= |jobs|
      && (r.stop.Failed? ==> r.stop.at < |jobs| && Untouched(r.state, |jobs|, r.stop.at + 1))
      && (forall j :: i <= j < Reached(r, |jobs|) ==> jobs[j].expanded.Some?)
      && (forall j :: 0 <= j < i ==> r.state.infos[j] == c.infos[j] && r.state.allFiles[j] == c.allFiles[j])
    decreases |jobs| - i
  {
    if i < |jobs| && jobs[i].expanded.Some? {
      var job := jobs[i];
      if job.pkg.name in installed {
        ConsumeStops(call, installed, jobs, i + 1, c);
      } else if PackageInfo(job.expanded.value).Some? {
        var p := Pkg(Id(call, i), PackageInfo(job.expanded.value).value);
        var c1 := c.(infos := c.infos[i := Some(p)]);
        if job.installed.Some? {
          var hdrs := job.installed.value;
          ConsumeStops(call, installed, jobs, i + 1,
                       c1.(allFiles := c1.allFiles[i := hdrs], owners := Claim(c1.owners, hdrs, p)));
        }
      }
    }
  }

  /**
    The job at an index makes the consumer stop: its expansion is missing, or it
    is not installed yet and its .PKGINFO is unreadable or its installation fails.
  */
  predicate JobFails(installed: set<string>, job: Job)
  {
    || job.expanded.None?
    || (job.pkg.name !in installed && (PackageInfo(job.expanded.value).None? || job.installed.None?))
  }

  /** The error the consumer reports for a failing job. */
  function JobError(installed: set<string>, job: Job): Error
    requires JobFails(installed, job)
  {
    if job.expanded.None? then ExpansionMissing(job.pkg.name)
    else if PackageInfo(job.expanded.value).None? then PkgInfoUnreadable(job.pkg.name)
    else InstallFailed(job.pkg.name)
  }

  /**
    The consumer stops exactly at the first failing job, with that job's error,
    and completes exactly when no job from `i` on fails.
  */
  lemma {:induction false} StopIsFailing(call: nat, installed: set<string>, jobs: seq<Job>, i: nat, c: Consumed)
    requires i <= |jobs| && Untouched(c, |jobs|, i)
    ensures var r := ConsumeFrom(call, installed, jobs, i, c);
      && (r.stop.Failed? ==> JobFails(installed, jobs[r.stop.at]) && r.stop.error == JobError(installed, jobs[r.stop.at]))
      && (forall j :: i <= j < Reached(r, |jobs|) ==> !JobFails(installed, jobs[j]))
      && (r.stop.Done? <==> forall j :: i <= j < |jobs| ==> !JobFails(installed, jobs[j]))
    decreases |jobs| - i
  {
    var r := ConsumeFrom(call, installed, jobs, i, c);
    ConsumeStops(call, installed, jobs, i, c);
    if i < |jobs| && jobs[i].expanded.Some? {
      var job := jobs[i];
      if job.pkg.name in installed {
        StopIsFailing(call, installed, jobs, i + 1, c);
      } else if PackageInfo(job.expanded.value).Some? && job.installed.Some? {
        var p := Pkg(Id(call, i), PackageInfo(job.expanded.value).value);
        var c1 := c.(infos := c.infos[i := Some(p)]);
        var hdrs := job.installed.value;
        StopIsFailing(call, installed, jobs, i + 1,
                      c1.(allFiles := c1.allFiles[i := hdrs], owners := Claim(c1.owners, hdrs, p)));
      }
    }
  }

  /** What the consumer leaves in slot `j` once it has completed index `j`. */
  ghost predicate SlotDone(call: nat, installed: set<string>, jobs: seq<Job>, c: Consumed, j: nat)
    requires j < |jobs| && |c.infos| == |jobs| && |c.allFiles| == |jobs|
  {
    if jobs[j].pkg.name in installed then c.infos[j] == None && c.allFiles[j] == []
    else
      && jobs[j].expanded.Some? && PackageInfo(jobs[j].expanded.value).Some? && jobs[j].installed.Some?
      && c.infos[j] == Some(Pkg(Id(call, j), PackageInfo(jobs[j].expanded.value).value))
      && c.allFiles[j] == jobs[j].installed.value
  }

  /**
    Every completed index holds what the consumer made of it: nothing for a
    package already installed, otherwise its record and installed files.
  */
  lemma {:induction false} ConsumeSlots(call: nat, installed: set<string>, jobs: seq<Job>, i: nat, c: Consumed)
    requires i <= |jobs| && Untouched(c, |jobs|, i)
    ensures var r := ConsumeFrom(call, installed, jobs, i, c);
      forall j :: i <= j < Reached(r, |jobs|) ==> SlotDone(call, installed, jobs, r.state, j)
    decreases |jobs| - i
  {
    var r := ConsumeFrom(call, installed, jobs, i, c);
    ConsumeStops(call, installed, jobs, i, c);
    if i < |jobs| && jobs[i].expanded.Some? {
      var job := jobs[i];
      if job.pkg.name in installed {
        ConsumeSlots(call, installed, jobs, i + 1, c);
        ConsumeStops(call, installed, jobs, i + 1, c);
        if i < Reached(r, |jobs|) {
          assert SlotDone(call, installed, jobs, r.state, i);
        }
      } else if PackageInfo(job.expanded.value).Some? {
        var p := Pkg(Id(call, i), PackageInfo(job.expanded.value).value);
        var c1 := c.(infos := c.infos[i := Some(p)]);
        if job.installed.Some? {
          var hdrs := job.installed.value;
          var c2 := c1.(allFiles := c1.allFiles[i := hdrs], owners := Claim(c1.owners, hdrs, p));
          ConsumeSlots(call, installed, jobs, i + 1, c2);
          ConsumeStops(call, installed, jobs, i + 1, c2);
          assert SlotDone(call, installed, jobs, r.state, i);
        }
      }
    }
  }

  /** Index `j` was installed by the consumer and wrote a non-directory entry named `n`. */
  ghost predicate WroteAt(installed: set<string>, jobs: seq<Job>, j: nat, n: string)
    requires j < |jobs|
  {
    jobs[j].pkg.name !in installed && jobs[j].installed.Some? && Writes(jobs[j].installed.value, n)
  }

  /** The last index in [i, end) that wrote `n`. */
  ghost function LastWriter(installed: set<string>, jobs: seq<Job>, i: nat, end: nat, n: string): (r: Option<nat>)
    requires end <= |jobs|
    ensures r.Some? ==> i <= r.value < end && WroteAt(installed, jobs, r.value, n)
    ensures r.Some? ==> forall k :: r.value < k < end ==> !WroteAt(installed, jobs, k, n)
    ensures r.None? ==> forall k :: i <= k < end ==> !WroteAt(installed, jobs, k, n)
    decreases end - i
  {
    if i >= end then None
    else match LastWriter(installed, jobs, i + 1, end, n)
      case Some(j) => Some(j)
      case None => if WroteAt(installed, jobs, i, n) then Some(i) else None
  }

  /**
    After the consumer, each path belongs to the last completed index that
    wrote it; a path nobody wrote keeps its previous owner, or stays unowned.
  */
  lemma {:induction false} ConsumeOwners(call: nat, installed: set<string>, jobs: seq<Job>, i: nat, c: Consumed, n: string)
    requires i <= |jobs| && Untouched(c, |jobs|, i)
    ensures var r := ConsumeFrom(call, installed, jobs, i, c);
      var end := Reached(r, |jobs|);
      && end <= |jobs|
      && (LastWriter(installed, jobs, i, end, n).Some? ==>
            n in r.state.owners && Some(r.state.owners[n]) == r.state.infos[LastWriter(installed, jobs, i, end, n).value])
      && (LastWriter(installed, jobs, i, end, n).None? ==>
            (n in r.state.owners <==> n in c.owners) && (n in c.owners ==> r.state.owners[n] == c.owners[n]))
    decreases |jobs| - i
  {
    if i < |jobs| && jobs[i].expanded.Some? {
      var job := jobs[i];
      if job.pkg.name in installed {
        ConsumeOwners(call, installed, jobs, i + 1, c, n);
        OwnersSkipStep(call, installed, jobs, i, c, n);
      } else if PackageInfo(job.expanded.value).Some? && job.installed.Some? {
        var p := Pkg(Id(call, i), PackageInfo(job.expanded.value).value);
        var c1 := c.(infos := c.infos[i := Some(p)]);
        var hdrs := job.installed.value;
        ConsumeOwners(call, installed, jobs, i + 1,
                      c1.(allFiles := c1.allFiles[i := hdrs], owners := Claim(c1.owners, hdrs, p)), n);
        OwnersInstallStep(call, installed, jobs, i, c, n);
      }
    }
  }

  /** The conclusion of ConsumeOwners, named so that each step below can take it for index `i + 1`. */
  ghost predicate OwnedByLastWriter(call: nat, installed: set<string>, jobs: seq<Job>, i: nat, c: Consumed, n: string)
    requires i <= |jobs| && Untouched(c, |jobs|, i)
  {
    var r := ConsumeFrom(call, installed, jobs, i, c);
    var end := Reached(r, |jobs|);
    && end <= |jobs|
    && (LastWriter(installed, jobs, i, end, n).Some? ==>
          n in r.state.owners && Some(r.state.owners[n]) == r.state.infos[LastWriter(installed, jobs, i, end, n).value])
    && (LastWriter(installed, jobs, i, end, n).None? ==>
          (n in r.state.owners <==> n in c.owners) && (n in c.owners ==> r.state.owners[n] == c.owners[n]))
  }

  /** A package already installed writes nothing, so ownership is decided by the later indices. */
  lemma OwnersSkipStep(call: nat, installed: set<string>, jobs: seq<Job>, i: nat, c: Consumed, n: string)
    requires i < |jobs| && Untouched(c, |jobs|, i)
    requires jobs[i].expanded.Some? && jobs[i].pkg.name in installed
    requires OwnedByLastWriter(call, installed, jobs, i + 1, c, n)
    ensures OwnedByLastWriter(call, installed, jobs, i, c, n)
  {
    ConsumeStops(call, installed, jobs, i + 1, c);
  }

  /** An installed package claims its paths; a later writer of the same path takes it over. */
  lemma OwnersInstallStep(call: nat, installed: set<string>, jobs: seq<Job>, i: nat, c: Consumed, n: string)
    requires i < |jobs| && Untouched(c, |jobs|, i)
    requires jobs[i].expanded.Some? && jobs[i].pkg.name !in installed
    requires PackageInfo(jobs[i].expanded.value).Some? && jobs[i].installed.Some?
    requires var p := Pkg(Id(call, i), PackageInfo(jobs[i].expanded.value).value);
      var c1 := c.(infos := c.infos[i := Some(p)]);
      var hdrs := jobs[i].installed.value;
      OwnedByLastWriter(call, installed, jobs, i + 1,
                        c1.(allFiles := c1.allFiles[i := hdrs], owners := Claim(c1.owners, hdrs, p)), n)
    ensures OwnedByLastWriter(call, installed, jobs, i, c, n)
  {
    var p := Pkg(Id(call, i), PackageInfo(jobs[i].expanded.value).value);
    var c1 := c.(infos := c.infos[i := Some(p)]);
    var hdrs := jobs[i].installed.value;
    ConsumeStops(call, installed, jobs, i + 1,
                 c1.(allFiles := c1.allFiles[i := hdrs], owners := Claim(c1.owners, hdrs, p)));
    ClaimOwner(c1.owners, hdrs, p, n);
  }

  /** A header survives finalization unless another package owns its path. */
  predicate Overwritten(owners: map<string, Pkg>, h: Header, p: Pkg)
  {
    h.name in owners && owners[h.name] != p
  }

  /** The files slices.DeleteFunc leaves, in their order. */
  function Kept(owners: map<string, Pkg>, files: seq<Header>, p: Pkg): (r: seq<Header>)
    ensures |r| <= |files|
  {
    if files == [] then []
    else
      var last := files[|files| - 1];
      Kept(owners, files[..|files| - 1], p) + (if Overwritten(owners, last, p) then [] else [last])
  }

  /** A header is kept exactly when its path has no owner or is owned by this package. */
  lemma {:induction false} KeptIff(owners: map<string, Pkg>, files: seq<Header>, p: Pkg, h: Header)
    ensures h in Kept(owners, files, p) <==> h in files && (h.name !in owners || owners[h.name] == p)
    decreases |files|
  {
    if files != [] {
      var front := files[..|files| - 1];
      KeptIff(owners, front, p, h);
      assert files == front + [files[|files| - 1]];
    }
  }

  /** slices.DeleteFunc: compact the kept headers to the front of `a`, in order. */
  method DeleteFunc(a: array<Header>, owners: map<string, Pkg>, p: Pkg) returns (n: nat)
    modifies a
    ensures n <= a.Length && a[..n] == Kept(owners, old(a[..]), p)
  {
    ghost var orig := a[..];
    n := 0;
    var i := 0;
    while i < a.Length
      invariant 0 <= n <= i <= a.Length
      invariant a[..n] == Kept(owners, orig[..i], p)
      invariant forall k :: i <= k < a.Length ==> a[k] == orig[k]
    {
      var h := a[i];
      KeptStep(owners, orig, i, p);
      if !Overwritten(owners, h, p) {
        ghost var kept := a[..n];
        a[n] := h;
        assert a[..n + 1] == kept + [h];
        n := n + 1;
      }
      i := i + 1;
    }
    assert orig[..a.Length] == orig;
  }

  lemma KeptStep(owners: map<string, Pkg>, files: seq<Header>, i: nat, p: Pkg)
    requires i < |files|
    ensures Kept(owners, files[..i + 1], p)
         == Kept(owners, files[..i], p) + (if Overwritten(owners, files[i], p) then [] else [files[i]])
  {
    assert files[..i + 1][..i] == files[..i];
  }

  /** The database after finalization of the first `k` indices. */
  function Finalize(infos: seq<Option<Pkg>>, allFiles: seq<seq<Header>>, owners: map<string, Pkg>,
                    db: seq<DbEntry>, k: nat): (out: seq<DbEntry>)
    requires k <= |infos| == |allFiles|
    ensures |db| <= |out| && out[..|db|] == db
  {
    if k == 0 then db
    else
      var prev := Finalize(infos, allFiles, owners, db, k - 1);
      match infos[k - 1]
      case None => prev
      case Some(p) => prev + [DbEntry(p, Kept(owners, allFiles[k - 1], p))]
  }

  /**
    Finalization appends one entry per recorded package and nothing else; a
    skipped index (no record) gets no entry.
  */
  lemma {:induction false} FinalizeEntries(infos: seq<Option<Pkg>>, allFiles: seq<seq<Header>>,
                                           owners: map<string, Pkg>, db: seq<DbEntry>, k: nat)
    requires k <= |infos| == |allFiles|
    ensures var out := Finalize(infos, allFiles, owners, db, k);
      && |db| <= |out| && out[..|db|] == db
      && forall e :: e in out[|db|..] <==>
           exists j :: 0 <= j < k && infos[j].Some? && e == DbEntry(infos[j].value, Kept(owners, allFiles[j], infos[j].value))
  {
    if k > 0 {
      FinalizeEntries(infos, allFiles, owners, db, k - 1);
      var prev := Finalize(infos, allFiles, owners, db, k - 1);
      var out := Finalize(infos, allFiles, owners, db, k);
      if infos[k - 1].Some? {
        var e0 := DbEntry(infos[k - 1].value, Kept(owners, allFiles[k - 1], infos[k - 1].value));
        assert out == prev + [e0];
        assert out[|db|..] == prev[|db|..] + [e0];
        assert out[..|db|] == prev[..|db|];
      }
    }
  }

  /** The number of recorded packages among the first `k` indices. */
  function Recorded(infos: seq<Option<Pkg>>, k: nat): (n: nat)
    requires k <= |infos|
    ensures n <= k
  {
    if k == 0 then 0 else Recorded(infos, k - 1) + (if infos[k - 1].Some? then 1 else 0)
  }

  lemma {:induction false} RecordedGrows(infos: seq<Option<Pkg>>, j: nat, k: nat)
    requires j < k <= |infos| && infos[j].Some?
    ensures Recorded(infos, j) < Recorded(infos, k)
    decreases k
  {
    if j < k - 1 {
      RecordedGrows(infos, j, k - 1);
    }
  }

  /**
    Finalization appends exactly one entry per recorded package, in index order:
    the recorded package at index `j` gets the entry at position
    `|db| + Recorded(infos, j)`.
  */
  lemma {:induction false} FinalizeInOrder(infos: seq<Option<Pkg>>, allFiles: seq<seq<Header>>,
                                           owners: map<string, Pkg>, db: seq<DbEntry>, k: nat)
    requires k <= |infos| == |allFiles|
    ensures var out := Finalize(infos, allFiles, owners, db, k);
      && |out| == |db| + Recorded(infos, k)
      && forall j :: 0 <= j < k && infos[j].Some? ==>
           |db| + Recorded(infos, j) < |out|
           && out[|db| + Recorded(infos, j)] == DbEntry(infos[j].value, Kept(owners, allFiles[j], infos[j].value))
    decreases k
  {
    if k > 0 {
      FinalizeInOrder(infos, allFiles, owners, db, k - 1);
      var prev := Finalize(infos, allFiles, owners, db, k - 1);
      var out := Finalize(infos, allFiles, owners, db, k);
      if infos[k - 1].Some? {
        var e0 := DbEntry(infos[k - 1].value, Kept(owners, allFiles[k - 1], infos[k - 1].value));
        assert out == prev + [e0];
        forall j | 0 <= j < k - 1 && infos[j].Some?
          ensures out[|db| + Recorded(infos, j)] == prev[|db| + Recorded(infos, j)]
        {
          RecordedGrows(infos, j, k - 1);
        }
      }
    }
  }

  /** What InstallPackages returns, and the ownership map and database afterwards. */
  datatype Outcome = Outcome(result: Result<seq<Option<Pkg>>>, owners: map<string, Pkg>, db: seq<DbEntry>)

  function Start(n: nat, owners: map<string, Pkg>): (c: Consumed)
    ensures Untouched(c, n, 0)
  {
    Consumed(seq(n, _ => None), seq(n, _ => []), owners)
  }

  /**
    InstallPackages: the consumer over all indices, then, only when it completed,
    the finalization. An error leaves the database as it was.
  */
  function InstallSpec(call: nat, owners: map<string, Pkg>, db: seq<DbEntry>, jobs: seq<Job>): (o: Outcome)
    ensures o.result.Ok? ==> |o.result.value| == |jobs|
    ensures o.result.Err? ==> o.db == db
  {
    var r := ConsumeFrom(call, Names(db), jobs, 0, Start(|jobs|, owners));
    match r.stop
    case Failed(_, e) => Outcome(Err(e), r.state.owners, db)
    case Done =>
      Outcome(Ok(r.state.infos), r.state.owners,
              Finalize(r.state.infos, r.state.allFiles, r.state.owners, db, |jobs|))
  }

  /**
    A missing expansion makes the whole call fail with the database unchanged,
    and no index after it installs anything.
  */
  lemma MissingExpansionAborts(call: nat, owners: map<string, Pkg>, db: seq<DbEntry>, jobs: seq<Job>, k: nat)
    requires k < |jobs| && jobs[k].expanded.None?
    ensures var o := InstallSpec(call, owners, db, jobs);
      && o.result.Err? && o.db == db
      && forall n :: n in o.owners && (n !in owners || o.owners[n] != owners[n]) ==>
           o.owners[n].id.call == call && o.owners[n].id.index < k
  {
    var c := Start(|jobs|, owners);
    var r := ConsumeFrom(call, Names(db), jobs, 0, c);
    ConsumeStops(call, Names(db), jobs, 0, c);
    ConsumeSlots(call, Names(db), jobs, 0, c);
    assert r.stop.Failed? && r.stop.at <= k;
    forall n | n in r.state.owners && (n !in owners || r.state.owners[n] != owners[n])
      ensures r.state.owners[n].id.call == call && r.state.owners[n].id.index < k
    {
      ConsumeOwners(call, Names(db), jobs, 0, c, n);
      var j := LastWriter(Names(db), jobs, 0, Reached(r, |jobs|), n).value;
      assert SlotDone(call, Names(db), jobs, r.state, j);
    }
  }

  /**
    The call succeeds exactly when no job fails. When `k` is the first failing
    index, the consumer stops there with that job's error, the call fails with it
    and leaves the database unchanged, and every index before `k` was completed.
  */
  lemma FirstFailureAborts(call: nat, owners: map<string, Pkg>, db: seq<DbEntry>, jobs: seq<Job>, k: nat)
    requires k < |jobs| && JobFails(Names(db), jobs[k])
    requires forall j :: 0 <= j < k ==> !JobFails(Names(db), jobs[j])
    ensures var r := ConsumeFrom(call, Names(db), jobs, 0, Start(|jobs|, owners));
      var o := InstallSpec(call, owners, db, jobs);
      && r.stop == Failed(k, JobError(Names(db), jobs[k]))
      && o.result == Err(JobError(Names(db), jobs[k])) && o.db == db
      && forall j :: 0 <= j < k ==> SlotDone(call, Names(db), jobs, r.state, j)
  {
    var c := Start(|jobs|, owners);
    var r := ConsumeFrom(call, Names(db), jobs, 0, c);
    ConsumeStops(call, Names(db), jobs, 0, c);
    ConsumeSlots(call, Names(db), jobs, 0, c);
    StopIsFailing(call, Names(db), jobs, 0, c);
  }

  /** InstallPackages succeeds exactly when no job fails. */
  lemma InstallSucceedsIff(call: nat, owners: map<string, Pkg>, db: seq<DbEntry>, jobs: seq<Job>)
    ensures InstallSpec(call, owners, db, jobs).result.Ok?
        <==> forall j :: 0 <= j < |jobs| ==> !JobFails(Names(db), jobs[j])
  {
    StopIsFailing(call, Names(db), jobs, 0, Start(|jobs|, owners));
  }

  /** A package that is already installed is skipped: no record and no database entry. */
  lemma SkippedPackage(call: nat, owners: map<string, Pkg>, db: seq<DbEntry>, jobs: seq<Job>, j: nat)
    requires j < |jobs| && jobs[j].pkg.name in Names(db)
    requires InstallSpec(call, owners, db, jobs).result.Ok?
    ensures var o := InstallSpec(call, owners, db, jobs);
      && o.result.value[j] == None
      && forall e :: e in o.db[|db|..] ==> e.pkg.id != Id(call, j)
  {
    var c := Start(|jobs|, owners);
    var r := ConsumeFrom(call, Names(db), jobs, 0, c);
    ConsumeStops(call, Names(db), jobs, 0, c);
    ConsumeSlots(call, Names(db), jobs, 0, c);
    assert SlotDone(call, Names(db), jobs, r.state, j);
    FinalizeEntries(r.state.infos, r.state.allFiles, r.state.owners, db, |jobs|);
    forall e | e in InstallSpec(call, owners, db, jobs).db[|db|..] ensures e.pkg.id != Id(call, j) {
      var k :| 0 <= k < |jobs| && r.state.infos[k].Some?
               && e == DbEntry(r.state.infos[k].value, Kept(r.state.owners, r.state.allFiles[k], r.state.infos[k].value));
      assert SlotDone(call, Names(db), jobs, r.state, k);
    }
  }

  /**
    The name a package is recorded under is the one from its .PKGINFO, while the
    consumer skips by the name in the package list; reinstalling is a no-op when
    the two agree.
  */
  predicate NamesAgree(jobs: seq<Job>)
  {
    forall j :: 0 <= j < |jobs| && jobs[j].expanded.Some? && PackageInfo(jobs[j].expanded.value).Some? ==>
      PackageInfo(jobs[j].expanded.value).value.name == jobs[j].pkg.name
  }

  /** A consumer over jobs whose packages are all installed already skips them all and changes nothing. */
  lemma {:induction false} ConsumeAllSkipped(call: nat, installed: set<string>, jobs: seq<Job>, i: nat, c: Consumed)
    requires i <= |jobs| && Untouched(c, |jobs|, i)
    requires forall j :: i <= j < |jobs| ==> jobs[j].expanded.Some? && jobs[j].pkg.name in installed
    ensures ConsumeFrom(call, installed, jobs, i, c) == Run(c, Done)
    decreases |jobs| - i
  {
    if i < |jobs| {
      ConsumeAllSkipped(call, installed, jobs, i + 1, c);
    }
  }

  /** Finalization with no recorded package leaves the database as it is. */
  lemma {:induction false} FinalizeNothing(infos: seq<Option<Pkg>>, allFiles: seq<seq<Header>>,
                                           owners: map<string, Pkg>, db: seq<DbEntry>, k: nat)
    requires k <= |infos| == |allFiles|
    requires forall j :: 0 <= j < k ==> infos[j].None?
    ensures Finalize(infos, allFiles, owners, db, k) == db
  {
    if k > 0 {
      FinalizeNothing(infos, allFiles, owners, db, k - 1);
    }
  }

  /** After a successful call, every package of the batch is in the database under its list name. */
  lemma NameRecorded(call: nat, owners: map<string, Pkg>, db: seq<DbEntry>, jobs: seq<Job>, j: nat)
    requires InstallSpec(call, owners, db, jobs).result.Ok? && NamesAgree(jobs)
    requires j < |jobs|
    ensures jobs[j].expanded.Some? && jobs[j].pkg.name in Names(InstallSpec(call, owners, db, jobs).db)
  {
    var c := Start(|jobs|, owners);
    var r := ConsumeFrom(call, Names(db), jobs, 0, c);
    var out := InstallSpec(call, owners, db, jobs).db;
    StopIsFailing(call, Names(db), jobs, 0, c);
    ConsumeStops(call, Names(db), jobs, 0, c);
    ConsumeSlots(call, Names(db), jobs, 0, c);
    assert !JobFails(Names(db), jobs[j]);
    FinalizeEntries(r.state.infos, r.state.allFiles, r.state.owners, db, |jobs|);
    if jobs[j].pkg.name in Names(db) {
      var e :| e in db && e.pkg.data.name == jobs[j].pkg.name;
      assert out[..|db|] == db;
      assert e in out;
    } else {
      assert SlotDone(call, Names(db), jobs, r.state, j);
      var e := DbEntry(r.state.infos[j].value, Kept(r.state.owners, r.state.allFiles[j], r.state.infos[j].value));
      assert e in out[|db|..];
      assert e in out;
    }
  }

  /**
    Installing the same batch again after a successful install is a no-op: every
    package is found installed and skipped, so every slot is empty, and the
    ownership map and the database stay as the first call left them.
  */
  lemma ReinstallIsNoOp(call: nat, call2: nat, owners: map<string, Pkg>, db: seq<DbEntry>, jobs: seq<Job>)
    requires InstallSpec(call, owners, db, jobs).result.Ok? && NamesAgree(jobs)
    ensures var o := InstallSpec(call, owners, db, jobs);
      InstallSpec(call2, o.owners, o.db, jobs) == Outcome(Ok(seq(|jobs|, _ => None)), o.owners, o.db)
  {
    var o := InstallSpec(call, owners, db, jobs);
    var c := Start(|jobs|, o.owners);
    forall j | 0 <= j < |jobs| ensures jobs[j].expanded.Some? && jobs[j].pkg.name in Names(o.db) {
      NameRecorded(call, owners, db, jobs, j);
    }
    ConsumeAllSkipped(call2, Names(o.db), jobs, 0, c);
    FinalizeNothing(c.infos, c.allFiles, o.owners, o.db, |jobs|);
  }

  /**
    Ownership dedup: when the call succeeds, a non-directory file that package
    `j` installed stays in `j`'s database entry exactly when no later package of
    the batch installed the same path.
  */
  lemma LastWriterKeepsFile(call: nat, owners: map<string, Pkg>, db: seq<DbEntry>, jobs: seq<Job>, j: nat, h: Header)
    requires InstallSpec(call, owners, db, jobs).result.Ok?
    requires j < |jobs| && jobs[j].pkg.name !in Names(db)
    requires jobs[j].installed.Some? && h in jobs[j].installed.value && Claims(h)
    ensures var o := InstallSpec(call, owners, db, jobs);
      && o.result.value[j].Some?
      && (h in Kept(o.owners, jobs[j].installed.value, o.result.value[j].value)
         <==> forall k :: j < k < |jobs| ==> !WroteAt(Names(db), jobs, k, h.name))
  {
    var c := Start(|jobs|, owners);
    var r := ConsumeFrom(call, Names(db), jobs, 0, c);
    ConsumeStops(call, Names(db), jobs, 0, c);
    ConsumeSlots(call, Names(db), jobs, 0, c);
    ConsumeOwners(call, Names(db), jobs, 0, c, h.name);
    assert SlotDone(call, Names(db), jobs, r.state, j);
    assert WroteAt(Names(db), jobs, j, h.name);
    var last := LastWriter(Names(db), jobs, 0, |jobs|, h.name).value;
    assert SlotDone(call, Names(db), jobs, r.state, last);
    KeptIff(r.state.owners, jobs[j].installed.value, r.state.infos[j].value, h);
  }

  /** The engine object: its ownership map and installed database. */
  class Apk {
    /** installedFiles: path to owning package, last write wins. */
    var installedFiles: map<string, Pkg>
    /** The installed database that AddInstalledPackage appends to. */
    var db: seq<DbEntry>
    /** The number of InstallPackages calls so far, which tells packages of different calls apart. */
    var calls: nat

    constructor (db: seq<DbEntry>)
      ensures installedFiles == map[] && this.db == db && calls == 0
    {
      installedFiles := map[];
      this.db := db;
      calls := 0;
    }

    /** installPackage: write the package's files and claim the paths they occupy. */
    method InstallPackage(p: Pkg, job: Job) returns (files: Option<seq<Header>>)
      modifies this
      ensures files == job.installed
      ensures installedFiles == if files.Some? then Claim(old(installedFiles), files.value, p) else old(installedFiles)
      ensures db == old(db) && calls == old(calls)
    {
      files := job.installed;
      if files.Some? {
        installedFiles := Claim(installedFiles, files.value, p);
      }
    }

    /** The files finalization records for `p`: `files` filtered in place. */
    method OwnedFiles(files: seq<Header>, p: Pkg) returns (kept: seq<Header>)
      ensures kept == Kept(installedFiles, files, p)
    {
      var a := new Header[|files|](j requires 0 <= j < |files| => files[j]);
      assert a[..] == files;
      var n := DeleteFunc(a, installedFiles, p);
      kept := a[..n];
    }

    /** The consumer goroutine: install the jobs in index order until one fails. */
    method Consume(call: nat, jobs: seq<Job>, installed: set<string>,
                   infos: array<Option<Pkg>>, allFiles: array<seq<Header>>) returns (failure: Option<Error>)
      requires Untouched(Consumed(infos[..], allFiles[..], installedFiles), |jobs|, 0)
      modifies this, infos, allFiles
      ensures var run := ConsumeFrom(call, installed, jobs, 0, old(Consumed(infos[..], allFiles[..], installedFiles)));
        && Consumed(infos[..], allFiles[..], installedFiles) == run.state
        && (failure.None? <==> run.stop.Done?)
        && (failure.Some? ==> failure.value == run.stop.error)
      ensures db == old(db) && calls == old(calls)
    {
      ghost var run := ConsumeFrom(call, installed, jobs, 0, Consumed(infos[..], allFiles[..], installedFiles));
      var i := 0;
      while i < |jobs|
        invariant 0 <= i <= |jobs|
        invariant db == old(db) && calls == old(calls)
        invariant Untouched(Consumed(infos[..], allFiles[..], installedFiles), |jobs|, i)
        invariant ConsumeFrom(call, installed, jobs, i, Consumed(infos[..], allFiles[..], installedFiles)) == run
      {
        var job := jobs[i];
        if job.expanded.None? {
          return Some(ExpansionMissing(job.pkg.name));
        }
        if job.pkg.name !in installed {
          var info := PackageInfo(job.expanded.value);
          if info.None? {
            return Some(PkgInfoUnreadable(job.pkg.name));
          }
          var p := Pkg(Id(call, i), info.value);
          infos[i] := Some(p);
          var files := InstallPackage(p, job);
          if files.None? {
            return Some(InstallFailed(job.pkg.name));
          }
          allFiles[i] := files.value;
        }
        i := i + 1;
      }
      return None;
    }

    /** Finalization: add each installed package with the files it still owns. */
    method RecordInstalled(infos: array<Option<Pkg>>, allFiles: array<seq<Header>>)
      requires infos.Length == allFiles.Length
      modifies this
      ensures db == Finalize(infos[..], allFiles[..], installedFiles, old(db), infos.Length)
      ensures installedFiles == old(installedFiles) && calls == old(calls)
    {
      var k := 0;
      while k < infos.Length
        invariant 0 <= k <= infos.Length
        invariant installedFiles == old(installedFiles) && calls == old(calls)
        invariant db == Finalize(infos[..], allFiles[..], installedFiles, old(db), k)
      {
        if infos[k].Some? {
          var p := infos[k].value;
          var files := OwnedFiles(allFiles[k], p);
          db := db + [DbEntry(p, files)];
        }
        k := k + 1;
      }
    }

    /** InstallPackages. */
    method InstallPackages(jobs: seq<Job>) returns (r: Result<seq<Option<Pkg>>>)
      modifies this
      ensures var o := InstallSpec(old(calls), old(installedFiles), old(db), jobs);
        r == o.result && installedFiles == o.owners && db == o.db
      ensures calls == old(calls) + 1
    {
      var call := calls;
      calls := calls + 1;
      var infos := new Option<Pkg>[|jobs|](_ => None);
      var allFiles := new seq<Header>[|jobs|](_ => []);
      assert Consumed(infos[..], allFiles[..], installedFiles) == Start(|jobs|, installedFiles);
      var failure := Consume(call, jobs, Names(db), infos, allFiles);
      if failure.Some? {
        return Err(failure.value);
      }
      RecordInstalled(infos, allFiles);
      return Ok(infos[..]);
    }
  }
}
