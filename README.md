# apko's APK engine core, modelled in Dafny

This project models the sequential logic inside apko's APK engine,
`pkg/apk/apk/implementation.go`, and proves properties of it:

- **The ordered install pipeline** (`InstallPackages`). Expansion results arrive as one optional value per index.
  - A single consumer installs packages strictly in index order. It aborts on a missing expansion and skips packages that are already installed.
  - Installing a package claims every non-directory path it writes in the engine's ownership map (`installedFiles`, where the last write wins).
  - Finalization then filters each package's headers in place (`slices.DeleteFunc`) against that map and appends the package to the installed database.
- **The content-addressed package cache.**
  - `cachedPackage` looks a package up by its index checksum. The checksum is `Q1` followed by the base64 of the control hash.
  - `cachePackage` moves freshly expanded files to names made of lower-case hex and a fixed suffix.
  - `datahash` insists on exactly one `datahash` value.
  - A directory is an abstract map from path to what a stat or read of it gives. The two directions are proved to be a round trip: a package adopted by `cachePackage` is found again by `cachedPackage`.
- **Expansion control flow and the once-per-URL memo.**
  - `expandPackage` decides between a cache hit and fetch → expand → adopt.
  - `APK.expandPackage` bypasses the memo when no cache is configured.
  - `apkCache.get` runs the expansion at most once per URL and hands every later caller the stored result, a stored error included.
- **Small pure helpers.**
  - `parseAlpineVersion` is proved equal to the language of its regular expression.
  - `ListInitFiles` is proved to produce its fixed 21-header layout.
  - The constant tables that `InitDB` walks (`initDirectories`, `initFiles`, `initDeviceFiles`) are proved well ordered: every table entry lies directly in a base directory or in one created earlier in the tables. `InitDB` itself is not part of this model.
  - `packageInfo` copies fields into the database record.

Modules:
- `Wrappers`: Option, Result and the engine's error kinds.
- `Encoding`: hex as in Go's `encoding/hex`, and base64 as in section 4 of RFC 4648, decoded the way Go's `base64.StdEncoding` does.
- `Repositories`: `parseAlpineVersion`.
- `CacheStore`: the cache, with the classes `Disk` and `Expanded`.
- `Memo`: the memo as values.
- `Expansion`: the expansion flow, with the class `ApkCache`.
- `Tar`: tar headers.
- `Install`: the pipeline, with the class `Apk`.
- `InitFiles`: `ListInitFiles`.

The imperative parts keep their imperative form, and each method is proved against a specification function:
- `Expanded` is updated field by field.
- `Disk` holds the filesystem.
- `ApkCache` stores results into its map.
- `Apk` keeps the ownership map and the database.
- `DeleteFunc` compacts an array in place.
- `ListInitFiles` appends to a list in loops.

Two names are in play for a package. The skip test at pkg/apk/apk/implementation.go:738 asks for the name in the package list (`PackageName()`). The database records the name read from `.PKGINFO` (pkg/apk/apk/implementation.go:747-749 and :811). `Install.Names` reads the recorded name. So `Install.ReinstallIsNoOp` assumes the two names agree for every package (`Install.NamesAgree`). If they differ, a second call installs the package again.

Package pointers (apko compares owners with `!=` on `*Package`) are modelled as an identity `Id(call, index)`: the `InstallPackages` call and the index that allocated the record.

`installedFiles` is written while a package is installed, by `installAPKFiles` (pkg/apk/apk/implementation.go:1434, reached from the consumer's call of `installPackage` at pkg/apk/apk/implementation.go:754), before finalization reads it (pkg/apk/apk/implementation.go:800-809). The model therefore claims paths in `Apk.InstallPackage`.

## Model

| member | source | states |
|---|---|---|
| Encoding.HexRoundTrip | pkg/apk/apk/implementation.go:1190 | decoding the hex of a byte string gives back that byte string, so `hex.DecodeString` of a name `cachePackage` wrote recovers the package hash |
| Encoding.HexEncodeInjective | pkg/apk/apk/implementation.go:1130-1134 | different hashes give different hex names, so distinct packages never share a cache file name |
| Encoding.HexEncodeIsLower | pkg/apk/apk/implementation.go:1057 | `hex.EncodeToString` writes only lower-case hex digits |
| Encoding.Base64RoundTrip | pkg/apk/apk/implementation.go:1125 | `base64.StdEncoding` decoding of the padded standard encoding of a hash gives the hash back |
| Encoding.EncodeHasNoNewlines | pkg/apk/apk/implementation.go:1125 | the encoder never writes the line breaks that the decoder skips |
| Repositories.ParseAlpineVersionCorrect | pkg/apk/apk/implementation.go:418-426 | `parseAlpineVersion(repo)` returns `(v, true)` exactly when `repo` matches `^http[s]?://.+/alpine/([^/]+)/[^/]+$` with `v` as the capture group; otherwise it returns `("", false)` |
| CacheStore.ParseChecksum | pkg/apk/apk/implementation.go:1120-1128 | the checksum is accepted exactly when it starts with `Q1` and the rest is valid base64; the result is the decoded hash; a missing prefix is the "unexpected checksum" error |
| CacheStore.ParseChecksumRoundTrip | pkg/apk/apk/implementation.go:1120-1128 | `Q1` followed by the base64 of a hash parses back to that hash |
| CacheStore.Datahash | pkg/apk/apk/implementation.go:1462-1473 | succeeds exactly when the control archive yields one `datahash` value, and returns that value; any other count is the "saw N datahash values" error |
| CacheStore.CachedEntry | pkg/apk/apk/implementation.go:1116-1210 | on a hit: the control hash is the parsed checksum; the control file is `hex(hash).ctl.tar.gz` and exists; the control file declares exactly one datahash `dh`; the data file is `dh.dat.tar.gz` and exists; the package hash is the hex decoding of `dh`; `TarFile` is the data path without `.gz`; `Signed` holds iff `hex(hash).sig.tar.gz` exists; the control, signature and data sizes are those files' stat sizes and `Size` is their sum. A checksum error propagates and a missing control file is a not-exist error for its path |
| CacheStore.CachedEntryIff | pkg/apk/apk/implementation.go:1116-1195 | the lookup succeeds exactly when every step does (checksum, control file, one datahash, data file, valid hex); once the control file is found, a datahash error, a missing data file and invalid hex are each reported as that error |
| CacheStore.ControlEntry | pkg/apk/apk/implementation.go:1134-1167 | the control stage names `hex(hash).ctl.tar.gz` with the parsed hash and that file's stat size and `.PKGINFO`; `Signed` holds iff `hex(hash).sig.tar.gz` exists, and then the signature file is that name with its stat size, otherwise empty with size 0; the size so far is the control size plus the signature size |
| CacheStore.DataEntry | pkg/apk/apk/implementation.go:1170-1195 | the data stage changes only the data archive's fields. On success the control file declared one datahash `dh`, the data file is `dh.dat.tar.gz` with its stat size, the package hash is the hex decoding of `dh`, `TarFile` is the data path without `.gz`, and the total grows by the data size. A datahash error is returned unchanged, a missing data file is a not-exist error for its path and invalid hex is the hex error |
| CacheStore.CachedEntryHit | pkg/apk/apk/implementation.go:1132-1195 | once every step succeeds, the handle holds exactly the stat results, the hashes and `TarFile` = data path without `.gz` |
| CacheStore.CachedPackage | pkg/apk/apk/implementation.go:1116-1210 | the step-by-step filling of a fresh `APKExpanded` returns the error `CachedEntry` returns, or a fresh handle whose fields are `CachedEntry`'s result |
| CacheStore.Expanded.LoadData | pkg/apk/apk/implementation.go:1170-1195 | the method fails exactly when `DataEntry` does, with its error, and on success leaves the handle equal to `DataEntry`'s result |
| CacheStore.Advertise | pkg/apk/apk/implementation.go:1060 | after `AdvertiseCachedFile(src, dst)`, `dst` shows what `src` holds (or is gone when `src` is missing) and every other path is unchanged |
| CacheStore.Disk.AdvertiseCachedFile | pkg/apk/apk/implementation.go:1060-1062 | the disk's new files are `Advertise` of the old ones |
| CacheStore.AdoptedPathsDistinct | pkg/apk/apk/implementation.go:1057-1089 | the control, signature, data and tar names of one entry never coincide |
| CacheStore.TrimDataSuffix | pkg/apk/apk/implementation.go:1089 | trimming `.gz` from `x.dat.tar.gz` gives `x.dat.tar` |
| CacheStore.AdoptWrites | pkg/apk/apk/implementation.go:1055-1095 | adoption points the handle at `hex(ControlHash).ctl.tar.gz`, `hex(ControlHash).sig.tar.gz` (only when a signature file is set), `hex(PackageHash).dat.tar.gz` and that name without `.gz`; each new name shows the file it came from, and no other path changes |
| CacheStore.AdoptThenLookup | pkg/apk/apk/implementation.go:1057-1095 | a package adopted into the cache is found by `cachedPackage` under the checksum of its control hash, with an identical handle: same names, hashes, sizes and signature flag |
| CacheStore.AdoptedControl | pkg/apk/apk/implementation.go:1057-1074 | after adoption the control stage of the lookup finds the adopted control file, its `datahash` and the signature exactly when the package was signed |
| CacheStore.AdoptedData | pkg/apk/apk/implementation.go:1076-1095 | after adoption the data stage of the lookup finds the adopted archive and its tar name, and decodes the package hash back from the name |
| CacheStore.Expanded.CachePackage | pkg/apk/apk/implementation.go:1051-1114 | the field-by-field renaming leaves the disk and the handle exactly as `Adopt` describes |
| Memo.Replay | pkg/apk/apk/implementation.go:1225-1244 | serving a sequence of requests yields one answer per request and runs the work at most once per request |
| Memo.ReplayRunsOnce | pkg/apk/apk/implementation.go:1228-1235 | the work runs for exactly the requested URLs not stored beforehand, each at most once, and afterwards every requested URL is stored |
| Memo.ReplayStores | pkg/apk/apk/implementation.go:1228-1243 | afterwards the stored URLs are those stored before together with every requested URL |
| Memo.ReplayRan | pkg/apk/apk/implementation.go:1228-1235 | the work runs for a URL exactly when it was requested and not stored beforehand |
| Memo.ReplayRanDistinct | pkg/apk/apk/implementation.go:1228-1235 | no URL's work runs twice |
| Memo.ReplayAnswer | pkg/apk/apk/implementation.go:1237-1243 | every answer is the stored result, or else the result of the first request's work for that URL |
| Memo.SameUrlSameAnswer | pkg/apk/apk/implementation.go:1225-1244 | two calls with the same URL get the same result, a stored error included |
| Expansion.ExpandFlow | pkg/apk/apk/implementation.go:1258-1301 | with a cache, a hit returns the cached handle after only the lookup, with no fetch. A success without a fetch is a hit. `cachePackage` runs only with a cache. Without a cache there is no lookup and no adoption, and success returns the expanded handle |
| Expansion.MissAdopts | pkg/apk/apk/implementation.go:1263-1300 | with a cache, a successful miss makes the lookup, mkdir, fetch, expand and cache calls in that order and returns `Adopt` of the expanded handle and files |
| Expansion.Fetched | pkg/apk/apk/implementation.go:1284-1300 | after a miss the next call is always the fetch; adoption happens only with a cache, and then a success returns the adopted handle and files after fetch, expand and cache |
| Expansion.SecondExpansionHits | pkg/apk/apk/implementation.go:1263-1300 | after a miss that fetched, expanded and adopted a package, expanding it again is a hit: no fetch, same handle |
| Expansion.ExpandApk | pkg/apk/apk/implementation.go:1290-1293 | the expansion outside the model yields the given handle and temporary files, or fails and writes nothing |
| Expansion.ExpandPackage | pkg/apk/apk/implementation.go:1258-1301 | the method's result and the disk afterwards are those of `ExpandFlow` |
| Expansion.ApkCache.Get | pkg/apk/apk/implementation.go:1225-1244 | a stored URL returns its stored result without running anything; otherwise the expansion runs once, its result is stored and returned, and the memo invariant (each URL run once, run iff stored) is kept |
| Expansion.ApkExpandPackage | pkg/apk/apk/implementation.go:1246-1256 | without a cache the memo is untouched and the result and disk are `ExpandFlow` without a cache. With a cache: a stored URL returns its stored result with the disk and the runs unchanged; a new URL runs the expansion once (the runs grow by that URL), and the result and disk are `ExpandFlow` with a cache; either way the memo is updated as `Serve` says |
| Install.PackageInfo | pkg/apk/apk/implementation.go:1379-1401 | a record exists exactly when `.PKGINFO` could be read |
| Install.CachedPackageInfo | pkg/apk/apk/implementation.go:1395-1398 | for a package from the cache, the record's checksum is the index checksum's hash, its size the sum of the cached files and its installed size the `.PKGINFO` size |
| Install.DescribedPackageInfo | pkg/apk/apk/implementation.go:1379-1401 | for any handle that agrees with its files, the record exists exactly when `.PKGINFO` is readable, and then takes name, version, build date and installed size from it, the sum of the control, signature and data stat sizes as the size, and the control hash as the checksum |
| Install.ClaimOwner | pkg/apk/apk/implementation.go:80-81 | after a package writes its files, it owns every non-directory path it wrote and every other path keeps its previous owner |
| Install.ConsumeFrom | pkg/apk/apk/implementation.go:725-764 | the consumer keeps one slot per index and can stop only at an index it reached |
| Install.ConsumeStops | pkg/apk/apk/implementation.go:726-736 | the consumer's stop index is at or after the start; every expansion before it is present and no slot after it is touched |
| Install.StopIsFailing | pkg/apk/apk/implementation.go:726-763 | the consumer stops exactly at the first failing job (missing expansion; or, for a package not yet installed, unreadable `.PKGINFO` or failed install), with that job's error; no job before the stop fails; it completes exactly when no job fails |
| Install.ConsumeSlots | pkg/apk/apk/implementation.go:738-759 | every completed index holds nothing for an already-installed package, and otherwise its record and its installed files |
| Install.ConsumeOwners | pkg/apk/apk/implementation.go:754-759 | afterwards each path is owned by the record of the last completed index that wrote it; a path nobody wrote keeps its old owner |
| Install.OwnersSkipStep | pkg/apk/apk/implementation.go:743-746 | an already-installed package writes nothing, so the owners after it are decided by the later indices alone |
| Install.OwnersInstallStep | pkg/apk/apk/implementation.go:748-759 | an installed package claims the paths it wrote, and a later writer of the same path takes it over |
| Install.KeptIff | pkg/apk/apk/implementation.go:800-809 | a header is kept exactly when it was in the list and its path has no owner or is owned by this package |
| Install.KeptStep | pkg/apk/apk/implementation.go:800-809 | looking at one more header extends the kept list by that header exactly when it is not overwritten |
| Install.DeleteFunc | pkg/apk/apk/implementation.go:801-809 | in-place compaction leaves the kept headers, in their original order, in the array's prefix |
| Install.Apk.OwnedFiles | pkg/apk/apk/implementation.go:800-809 | the filtered list is `Kept` of the package's headers against the ownership map |
| Install.FinalizeEntries | pkg/apk/apk/implementation.go:789-814 | finalization keeps the old database as a prefix, and the appended entries are exactly the entries of the recorded packages (each with its kept files); a skipped index contributes none |
| Install.FinalizeInOrder | pkg/apk/apk/implementation.go:789-814 | finalization appends exactly one entry per recorded package, in index order: as many entries as recorded packages, and the package recorded at index `j` has its entry right after the entries of the recorded packages before it |
| Install.Apk.RecordInstalled | pkg/apk/apk/implementation.go:789-814 | the loop appends exactly `Finalize`'s entries and leaves the ownership map unchanged |
| Install.InstallSpec | pkg/apk/apk/implementation.go:701-821 | a successful call returns one record slot per package; a failed call leaves the database unchanged |
| Install.InstallSucceedsIff | pkg/apk/apk/implementation.go:725-786 | InstallPackages succeeds exactly when no job fails |
| Install.FirstFailureAborts | pkg/apk/apk/implementation.go:725-786 | when `k` is the first failing index, the consumer stops there with that job's error, the call fails with that error and leaves the database unchanged, and every index before `k` was completed (record and installed files, or nothing for an already-installed package) |
| Install.ConsumeAllSkipped | pkg/apk/apk/implementation.go:738-746 | a consumer whose remaining jobs are all expanded and already installed skips every one of them and finishes with its state unchanged |
| Install.FinalizeNothing | pkg/apk/apk/implementation.go:789-799 | finalization with no recorded package returns the database unchanged |
| Install.NameRecorded | pkg/apk/apk/implementation.go:738-746 | after a successful call, every job's expansion is present and its list name is in the database (found there already, or recorded by this call under the matching .PKGINFO name) |
| Install.ReinstallIsNoOp | pkg/apk/apk/implementation.go:701-821 | installing the same batch again after a successful install succeeds with every slot empty and leaves the ownership map and the database unchanged, provided each package's .PKGINFO name equals its list name |
| Install.MissingExpansionAborts | pkg/apk/apk/implementation.go:726-786 | a missing expansion makes the call fail with the database unchanged, and only indices before it changed the ownership map |
| Install.SkippedPackage | pkg/apk/apk/implementation.go:743-798 | an already-installed package gets no record and no database entry |
| Install.LastWriterKeepsFile | pkg/apk/apk/implementation.go:789-809 | a non-directory file that package `j` installed stays in its entry exactly when no later package of the batch installed the same path |
| Install.Apk.InstallPackage | pkg/apk/apk/implementation.go:754-759 | installing claims the written paths for the package, last write wins |
| Install.Apk.Consume | pkg/apk/apk/implementation.go:725-764 | the loop leaves the slots and the ownership map exactly as `ConsumeFrom` does, and fails exactly when it fails, with its error |
| Install.Apk.InstallPackages | pkg/apk/apk/implementation.go:701-821 | the result, the ownership map and the database afterwards are those of `InstallSpec` |
| InitFiles.ListInitFiles | pkg/apk/apk/implementation.go:197-243 | the three loops and the final append build exactly `InitHeaders` |
| InitFiles.AppendEntries | pkg/apk/apk/implementation.go:206-223 | the loop appends one header per directory or file, in order, with its path, type and permissions |
| InitFiles.AppendDevices | pkg/apk/apk/implementation.go:224-232 | the loop appends one character-device header per device node, in order |
| InitFiles.InitHeadersLayout | pkg/apk/apk/implementation.go:197-243 | 21 headers: 9 directories, then 6 regular files, then 5 character devices, then the scripts archive last, all owned by uid 0 and gid 0 |
| InitFiles.DirectoriesFollowParents | pkg/apk/apk/implementation.go:148-167 | each directory of `InitDB`'s `initDirectories` table lies directly in a base directory or in a directory listed before it, as the table's comment requires since no MkdirAll is done |
| InitFiles.FilesFollowParents | pkg/apk/apk/implementation.go:169-178 | every regular file, `/etc/apk/arch` included, lies directly in a created directory |
| InitFiles.EtcFilesFollowParents | pkg/apk/apk/implementation.go:172-173 | `/etc/apk/world` and `/etc/apk/repositories` lie directly in the created `/etc/apk` |
| InitFiles.DatabaseFilesFollowParents | pkg/apk/apk/implementation.go:174-176 | `lock`, `triggers` and `installed` lie directly in the created `/usr/lib/apk/db` |
| InitFiles.DevicesFollowParents | pkg/apk/apk/implementation.go:180-186 | every device node lies directly in the base directory `/dev` |

## Left out

- Network and keys: `InitKeyring`, `loadSystemKeyring`, `fetchAlpineKeys`, `DiscoverKeys`, `fetchChainguardKeys` and `FetchPackage` are I/O. The outcome of a fetch is an input (`World.fetchOk`).
- `expandapk.ExpandApk`, `cacheDirForPackage` and `paths.AdvertiseCachedFile` are not part of this model. Their outcomes are inputs (`World`), and `AdvertiseCachedFile` is modelled as making `dst` show `src`.
- Opaque parsers and cryptography: tarfs indexing, reading the control archive, SHA-1 of the signature (`SignatureHash`), `controlValue` and the ini parsing of `.PKGINFO`. A file is an abstract `FileInfo` giving its size, its `datahash` values and its `.PKGINFO`.
- CacheStore.Adopt: total; the I/O failures of `cachePackage` are not modelled (`AdvertiseCachedFile`, `TarFS.Close`, reopening the package data, re-indexing the tar).
- CacheStore.CachedEntry: the read and indexing failures of the control archive, the signature read and the tarfs re-index are not modelled; only the stat, checksum, datahash and hex failures are.
- CacheStore.Join: `filepath.Join` is plain concatenation with `/`; its path cleaning is not modelled.
- Install.PackageInfo: every way `.PKGINFO` can fail to open, parse or map collapses into one unreadable case. `BuildTime` (a `time.Time` conversion) is not modelled.
- Install.InstallSpec: `isInstalledPackage` is membership of the name in the database and never fails. `AddInstalledPackage` never fails. `resolveApkDB` is not modelled.
- Install.InstallSpec: concurrency is sequentialised. The errgroup, the `done` channels, `GOMAXPROCS` and context cancellation are left out. So is which of several concurrent errors the group reports: the model reports the consumer's error at the first failing index.
- Install.Apk.InstallPackage: what `installAPKFiles` writes is an input (`Job.installed`). The model claims every non-directory header it returns. `updateScriptsTar` and `updateTriggers` are not modelled. A failing install is modelled as claiming nothing: a failure after `installAPKFiles` has filled `installedFiles` (reopening the control file, `updateScriptsTar`, `updateTriggers`, implementation.go:1434-1457) leaves that package's claims in the engine's ownership map, and a failure part-way through `installAPKFiles` leaves some of them; the model's map holds none of them.
- Memo: `sync.Map` and `sync.Once` thread safety is not modelled. The panic on a missing stored result cannot happen in a sequential model.
- Integer widths: sizes are unbounded naturals; the `int64` sizes and their `uint64` conversion are not modelled.
- InitFiles.ListInitFiles: `scriptsFilePath` and `scriptsTarPerms` are defined outside implementation.go and are parameters. The file contents, the device numbers and the permissions of the base directories do not appear in the headers and are not modelled.
- The rest of implementation.go is outside this model: `New`, `SetClient`, `InitDB`, `resolveApkDB`, `ResolveWorld`, `CalculateWorld`, `ResolveAndCalculateWorld`, `FixateWorld`, `withCause`, `packageAsURI`, `packageAsURL`, `installPackage`'s lazy-install branch and `packageRefs`.
