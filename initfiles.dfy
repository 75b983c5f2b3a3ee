/**
  ListInitFiles: the headers of the directories, files and device nodes that
  InitDB creates, in a fixed order, all owned by root.
*/
module InitFiles {
  import opened Tar
  import Repositories

  /** A path and its permission bits. */
  datatype Entry = Entry(path: string, perms: nat)

  /** A device node: its path, device numbers and permission bits. */
  datatype DeviceFile = DeviceFile(path: string, major: nat, minor: nat, perms: nat)

  const Mode755: nat := 493   // 0o755
  const Mode644: nat := 420   // 0o644
  const Mode600: nat := 384   // 0o600
  const Mode666: nat := 438   // 0o666
  const Mode620: nat := 400   // 0o620

  /** The directories InitDB assumes to exist already. */
  const BaseDirectories: seq<string> := ["/tmp", "/dev", "/etc", "/opt", "/proc", "/var", "/usr"]

  /** initDirectories: created in order, each after its parent. */
  const InitDirectories: seq<Entry> := [
    Entry("/etc/apk", Mode755),
    Entry("/etc/apk/keys", Mode755),
    Entry("/usr/lib", Mode755),
    Entry("/usr/lib/apk", Mode755),
    Entry("/usr/lib/apk/db", Mode755),
    Entry("/usr/lib/apk/exec", Mode755),
    Entry("/var/cache", Mode755),
    Entry("/var/cache/apk", Mode755),
    Entry("/var/cache/misc", Mode755)]

  /** initFiles. */
  const InitFileEntries: seq<Entry> := [
    Entry("/etc/apk/world", Mode644),
    Entry("/etc/apk/repositories", Mode644),
    Entry("/usr/lib/apk/db/lock", Mode600),
    Entry("/usr/lib/apk/db/triggers", Mode644),
    Entry("/usr/lib/apk/db/installed", Mode644)]

  /** The file that depends on the architecture, listed after initFiles. */
  const AdditionalFiles: seq<Entry> := [Entry("/etc/apk/arch", Mode644)]

  /** initDeviceFiles. */
  const InitDeviceFiles: seq<DeviceFile> := [
    DeviceFile("/dev/zero", 1, 5, Mode666),
    DeviceFile("/dev/urandom", 1, 9, Mode666),
    DeviceFile("/dev/null", 1, 3, Mode666),
    DeviceFile("/dev/random", 1, 8, Mode666),
    DeviceFile("/dev/console", 5, 1, Mode620)]

  /** One header per entry, of the given type, owned by uid and gid 0. */
  function EntryHeaders(entries: seq<Entry>, flag: TypeFlag): (hs: seq<Header>)
    ensures |hs| == |entries|
    ensures forall i :: 0 <= i < |entries| ==> hs[i] == Header(entries[i].path, flag, entries[i].perms, 0, 0)
  {
    if entries == [] then []
    else
      var last := entries[|entries| - 1];
      EntryHeaders(entries[..|entries| - 1], flag) + [Header(last.path, flag, last.perms, 0, 0)]
  }

  /** One character-device header per device node; the device numbers are not put in the header. */
  function DeviceHeaders(devices: seq<DeviceFile>): (hs: seq<Header>)
    ensures |hs| == |devices|
    ensures forall i :: 0 <= i < |devices| ==> hs[i] == Header(devices[i].path, TypeChar, devices[i].perms, 0, 0)
  {
    if devices == [] then []
    else
      var last := devices[|devices| - 1];
      DeviceHeaders(devices[..|devices| - 1]) + [Header(last.path, TypeChar, last.perms, 0, 0)]
  }

  /**
    The headers ListInitFiles returns: directories, then regular files, then
    device nodes, then the empty scripts archive at `scriptsPath`.
  */
  function InitHeaders(scriptsPath: string, scriptsPerms: nat): seq<Header>
  {
    EntryHeaders(InitDirectories, TypeDir)
    + EntryHeaders(InitFileEntries + AdditionalFiles, TypeReg)
    + DeviceHeaders(InitDeviceFiles)
    + [Header(scriptsPath, TypeReg, scriptsPerms, 0, 0)]
  }

  /** One `for _, e := range entries` loop of ListInitFiles: append a header per entry. */
  method AppendEntries(headers: seq<Header>, entries: seq<Entry>, flag: TypeFlag) returns (out: seq<Header>)
    ensures out == headers + EntryHeaders(entries, flag)
  {
    out := headers;
    for i := 0 to |entries|
      invariant out == headers + EntryHeaders(entries[..i], flag)
    {
      var e := entries[i];
      assert entries[..i + 1][..i] == entries[..i];
      out := out + [Header(e.path, flag, e.perms, 0, 0)];
    }
    assert entries[..|entries|] == entries;
  }

  /** The device-node loop of ListInitFiles. */
  method AppendDevices(headers: seq<Header>, devices: seq<DeviceFile>) returns (out: seq<Header>)
    ensures out == headers + DeviceHeaders(devices)
  {
    out := headers;
    for i := 0 to |devices|
      invariant out == headers + DeviceHeaders(devices[..i])
    {
      var e := devices[i];
      assert devices[..i + 1][..i] == devices[..i];
      out := out + [Header(e.path, TypeChar, e.perms, 0, 0)];
    }
    assert devices[..|devices|] == devices;
  }

  /** ListInitFiles: append the headers table by table. */
  method ListInitFiles(scriptsPath: string, scriptsPerms: nat) returns (headers: seq<Header>)
    ensures headers == InitHeaders(scriptsPath, scriptsPerms)
  {
    headers := AppendEntries([], InitDirectories, TypeDir);
    headers := AppendEntries(headers, InitFileEntries + AdditionalFiles, TypeReg);
    headers := AppendDevices(headers, InitDeviceFiles);
    headers := headers + [Header(scriptsPath, TypeReg, scriptsPerms, 0, 0)];
  }

  /**
    The list has 21 headers: the 9 directories first, the 6 regular files next,
    the 5 device nodes after them and the scripts archive last; all are owned
    by root.
  */
  lemma InitHeadersLayout(scriptsPath: string, scriptsPerms: nat)
    ensures var hs := InitHeaders(scriptsPath, scriptsPerms);
      && |hs| == 21
      && (forall i :: 0 <= i < 9 ==> hs[i].typeflag == TypeDir)
      && (forall i :: 9 <= i < 15 ==> hs[i].typeflag == TypeReg)
      && (forall i :: 15 <= i < 20 ==> hs[i].typeflag == TypeChar)
      && hs[20] == Header(scriptsPath, TypeReg, scriptsPerms, 0, 0)
      && (forall i :: 0 <= i < 21 ==> hs[i].uid == 0 && hs[i].gid == 0)
  {
    var d := EntryHeaders(InitDirectories, TypeDir);
    var f := EntryHeaders(InitFileEntries + AdditionalFiles, TypeReg);
    var v := DeviceHeaders(InitDeviceFiles);
    var hs := InitHeaders(scriptsPath, scriptsPerms);
    assert hs == d + f + v + [Header(scriptsPath, TypeReg, scriptsPerms, 0, 0)];
    assert forall i :: 0 <= i < 9 ==> hs[i] == d[i];
    assert forall i :: 9 <= i < 15 ==> hs[i] == f[i - 9];
    assert forall i :: 15 <= i < 20 ==> hs[i] == v[i - 15];
  }

  /** `path` names an entry directly inside directory `dir`. */
  predicate ChildOf(path: string, dir: string)
  {
    |dir| + 1 < |path| && path[..|dir|] == dir && path[|dir|] == '/' && Repositories.NoSlash(path[|dir| + 1..])
  }

  lemma Child(dir: string, name: string)
    requires |name| > 0 && Repositories.NoSlash(name)
    ensures ChildOf(dir + "/" + name, dir)
  {
    var path := dir + "/" + name;
    assert path[..|dir|] == dir;
    assert path[|dir| + 1..] == name;
  }

  /** The parent of `path` is a base directory or one of the first `k` created directories. */
  predicate ParentIn(path: string, k: nat)
  {
    || (exists b :: 0 <= b < |BaseDirectories| && ChildOf(path, BaseDirectories[b]))
    || (exists j :: 0 <= j < k && j < |InitDirectories| && ChildOf(path, InitDirectories[j].path))
  }

  /** `path` is `name` inside the base directory with index `b`. */
  lemma InBase(path: string, k: nat, b: nat, name: string)
    requires b < |BaseDirectories| && |name| > 0 && Repositories.NoSlash(name) && path == BaseDirectories[b] + "/" + name
    ensures ParentIn(path, k)
  {
    Child(BaseDirectories[b], name);
  }

  /** `path` is `name` inside the created directory with index `j < k`. */
  lemma InCreated(path: string, k: nat, j: nat, name: string)
    requires j < k && j < |InitDirectories| && |name| > 0 && Repositories.NoSlash(name)
    requires path == InitDirectories[j].path + "/" + name
    ensures ParentIn(path, k)
  {
    Child(InitDirectories[j].path, name);
  }

  /**
    No MkdirAll is done, so every directory's parent is a base directory or a
    directory created before it.
  */
  lemma DirectoriesFollowParents()
    ensures forall i :: 0 <= i < |InitDirectories| ==> ParentIn(InitDirectories[i].path, i)
  {
    var ds := InitDirectories;
    forall i | 0 <= i < |ds| ensures ParentIn(ds[i].path, i) {
      if i == 0 { InBase(ds[0].path, 0, 2, "apk"); }
      else if i == 1 { InCreated(ds[1].path, 1, 0, "keys"); }
      else if i == 2 { InBase(ds[2].path, 2, 6, "lib"); }
      else if i == 3 { InCreated(ds[3].path, 3, 2, "apk"); }
      else if i == 4 { InCreated(ds[4].path, 4, 3, "db"); }
      else if i == 5 { InCreated(ds[5].path, 5, 3, "exec"); }
      else if i == 6 { InBase(ds[6].path, 6, 5, "cache"); }
      else if i == 7 { InCreated(ds[7].path, 7, 6, "apk"); }
      else { InCreated(ds[8].path, 8, 6, "misc"); }
    }
  }

  lemma WorldFollowsParent()
    ensures ParentIn(InitFileEntries[0].path, |InitDirectories|)
  {
    InCreated(InitFileEntries[0].path, |InitDirectories|, 0, "world");
  }

  lemma RepositoriesFollowsParent()
    ensures ParentIn(InitFileEntries[1].path, |InitDirectories|)
  {
    InCreated(InitFileEntries[1].path, |InitDirectories|, 0, "repositories");
  }

  /** The files in /etc/apk. */
  lemma EtcFilesFollowParents()
    ensures forall i :: 0 <= i < 2 ==> ParentIn(InitFileEntries[i].path, |InitDirectories|)
  {
    forall i | 0 <= i < 2 ensures ParentIn(InitFileEntries[i].path, |InitDirectories|) {
      if i == 0 { WorldFollowsParent(); } else { RepositoriesFollowsParent(); }
    }
  }

  /** The files in /usr/lib/apk/db. */
  lemma DatabaseFilesFollowParents()
    ensures forall i :: 2 <= i < 5 ==> ParentIn(InitFileEntries[i].path, |InitDirectories|)
  {
    var fs, n := InitFileEntries, |InitDirectories|;
    forall i | 2 <= i < 5 ensures ParentIn(fs[i].path, n) {
      if i == 2 { InCreated(fs[2].path, n, 4, "lock"); }
      else if i == 3 { InCreated(fs[3].path, n, 4, "triggers"); }
      else { InCreated(fs[4].path, n, 4, "installed"); }
    }
  }

  /** Every regular file lies directly in a created directory. */
  lemma FilesFollowParents()
    ensures forall i :: 0 <= i < |InitFileEntries| ==> ParentIn(InitFileEntries[i].path, |InitDirectories|)
    ensures forall i :: 0 <= i < |AdditionalFiles| ==> ParentIn(AdditionalFiles[i].path, |InitDirectories|)
  {
    EtcFilesFollowParents();
    DatabaseFilesFollowParents();
    InCreated(AdditionalFiles[0].path, |InitDirectories|, 0, "arch");
  }

  /** Every device node lies directly in the base directory /dev. */
  lemma DevicesFollowParents()
    ensures forall i :: 0 <= i < |InitDeviceFiles| ==> ParentIn(InitDeviceFiles[i].path, 0)
  {
    var ds := InitDeviceFiles;
    forall i | 0 <= i < |ds| ensures ParentIn(ds[i].path, 0) {
      if i == 0 { InBase(ds[0].path, 0, 1, "zero"); }
      else if i == 1 { InBase(ds[1].path, 0, 1, "urandom"); }
      else if i == 2 { InBase(ds[2].path, 0, 1, "null"); }
      else if i == 3 { InBase(ds[3].path, 0, 1, "random"); }
      else { InBase(ds[4].path, 0, 1, "console"); }
    }
  }
}
