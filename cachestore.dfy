/**
  The content-addressed package cache: cachedPackage (lookup), cachePackage
  (adoption of freshly expanded files) and datahash.

  A cache directory is modelled as an abstract map from path to what a stat or a
  read of that path would give. Paths are joined with "/" (filepath.Join's
  cleaning is not modelled).
*/
module CacheStore {
  import opened Wrappers
  import opened Encoding

  /** The fields of .PKGINFO that the installer reads. */
  datatype PkgInfo = PkgInfo(name: string, version: string, buildDate: int, size: nat)

  /**
    What the engine can learn from one file: its size, the "datahash" values that
    controlValue reads from it when it is a control archive (None when it cannot be
    read as one), and its .PKGINFO (None when absent or unparseable).
  */
  datatype FileInfo = FileInfo(size: nat, datahash: Option<seq<string>>, pkgInfo: Option<PkgInfo>)

  type Dir = map<string, FileInfo>

  /**
    The fields of an expanded package (expandapk.APKExpanded) that the cache
    reads and writes. `pkgInfo` stands for the .PKGINFO of its control index.
  */
  datatype Handle = Handle(
    controlFile: string, controlHash: seq<byte>, controlSize: nat,
    signatureFile: string, signed: bool, signatureSize: nat,
    packageFile: string, packageHash: seq<byte>, packageSize: nat,
    tarFile: string, size: nat, pkgInfo: Option<PkgInfo>)

  const CtlSuffix: string := ".ctl.tar.gz"
  const SigSuffix: string := ".sig.tar.gz"
  const DatSuffix: string := ".dat.tar.gz"

  function Join(dir: string, name: string): string
  {
    dir + "/" + name
  }

  /** strings.TrimSuffix. */
  function TrimSuffix(s: string, suffix: string): (r: string)
    ensures |suffix| <= |s| && s[|s| - |suffix|..] == suffix ==> s == r + suffix
    ensures !(|suffix| <= |s| && s[|s| - |suffix|..] == suffix) ==> r == s
  {
    if |suffix| <= |s| && s[|s| - |suffix|..] == suffix then s[..|s| - |suffix|] else s
  }

  /** The control archive's cache path: named by the hex of the control hash. */
  function ControlPath(cacheDir: string, controlHash: seq<byte>): string
  {
    Join(cacheDir, HexEncode(controlHash) + CtlSuffix)
  }

  /** The signature's cache path: named by the control hash, too. */
  function SignaturePath(cacheDir: string, controlHash: seq<byte>): string
  {
    Join(cacheDir, HexEncode(controlHash) + SigSuffix)
  }

  /** The data archive's cache path, named by the datahash text. */
  function DataPath(cacheDir: string, datahash: string): string
  {
    Join(cacheDir, datahash + DatSuffix)
  }

  /** The decompressed data archive sits beside it without the ".gz". */
  function TarPath(cacheDir: string, datahash: string): string
  {
    Join(cacheDir, datahash + ".dat.tar")
  }

  /** An index checksum: the tag "Q1" then the base64 of the control hash. */
  function ParseChecksum(chk: string): (r: Result<seq<byte>>)
    ensures r.Ok? <==> "Q1" <= chk && Base64Decode(chk[2..]).Some?
    ensures !("Q1" <= chk) ==> r == Err(UnexpectedChecksum(chk))
    ensures r.Ok? ==> Base64Decode(chk[2..]) == Some(r.value)
  {
    if !("Q1" <= chk) then Err(UnexpectedChecksum(chk))
    else match Base64Decode(chk[2..])
      case None => Err(BadBase64)
      case Some(sum) => Ok(sum)
  }

  /** The checksum an index writes for a control hash parses back to that hash. */
  lemma ParseChecksumRoundTrip(h: seq<byte>)
    ensures ParseChecksum("Q1" + Base64Encode(h)) == Ok(h)
  {
    var chk := "Q1" + Base64Encode(h);
    assert chk[2..] == Base64Encode(h);
    Base64RoundTrip(h);
  }

  /** datahash: the control archive must declare exactly one "datahash" value. */
  function Datahash(ctl: string, values: Option<seq<string>>): (r: Result<string>)
    ensures r.Ok? <==> values.Some? && |values.value| == 1
    ensures r.Ok? ==> values == Some([r.value])
    ensures values.Some? && |values.value| != 1 ==> r == Err(DatahashCount(|values.value|))
  {
    match values
    case None => Err(ControlUnreadable(ctl))
    case Some(vs) =>
      if |vs| != 1 then Err(DatahashCount(|vs|))
      else assert vs == [vs[0]]; Ok(vs[0])
  }

  /**
    The first part of cachedPackage: the handle once the control archive, and
    the signature when there is one, have been found. The sizes found so far are
    added up.
  */
  function ControlEntry(fs: Dir, sum: seq<byte>, cacheDir: string): (h: Handle)
    requires ControlPath(cacheDir, sum) in fs
    ensures h.controlFile == ControlPath(cacheDir, sum) && h.controlHash == sum
    ensures h.controlSize == fs[h.controlFile].size && h.pkgInfo == fs[h.controlFile].pkgInfo
    ensures h.signed <==> SignaturePath(cacheDir, sum) in fs
    ensures h.signed ==> h.signatureFile == SignaturePath(cacheDir, sum) && h.signatureSize == fs[h.signatureFile].size
    ensures !h.signed ==> h.signatureFile == "" && h.signatureSize == 0
    ensures h.size == h.controlSize + h.signatureSize
  {
    var ctl, sig := ControlPath(cacheDir, sum), SignaturePath(cacheDir, sum);
    var cf := fs[ctl];
    var sigSize := if sig in fs then fs[sig].size else 0;
    Handle(ctl, sum, cf.size, if sig in fs then sig else "", sig in fs, sigSize,
           "", [], 0, "", cf.size + sigSize, cf.pkgInfo)
  }

  /**
    The second part of cachedPackage: the data archive is found by the datahash
    that the control archive declares, and its size is added.
  */
  function DataEntry(fs: Dir, h: Handle, cacheDir: string, values: Option<seq<string>>): (r: Result<Handle>)
    ensures r.Ok? ==> r.value.packageFile in fs && r.value.size == h.size + r.value.packageSize
    ensures r.Ok? ==> r.value.(packageFile := h.packageFile, packageHash := h.packageHash,
                               packageSize := h.packageSize, tarFile := h.tarFile, size := h.size) == h
    ensures r.Ok? ==> var d := Datahash(h.controlFile, values);
      && d.Ok? && r.value.packageFile == DataPath(cacheDir, d.value)
      && r.value.packageSize == fs[r.value.packageFile].size
      && HexDecode(d.value) == Some(r.value.packageHash)
      && r.value.tarFile == TrimSuffix(r.value.packageFile, ".gz")
    ensures Datahash(h.controlFile, values).Err? ==> r == Err(Datahash(h.controlFile, values).error)
    ensures var d := Datahash(h.controlFile, values);
      d.Ok? && DataPath(cacheDir, d.value) !in fs ==> r == Err(NotExist(DataPath(cacheDir, d.value)))
    ensures var d := Datahash(h.controlFile, values);
      d.Ok? && DataPath(cacheDir, d.value) in fs && HexDecode(d.value).None? ==> r == Err(BadHex)
  {
    var datahash :- Datahash(h.controlFile, values);
    var dat := DataPath(cacheDir, datahash);
    if dat !in fs then Err(NotExist(dat))
    else match HexDecode(datahash)
      case None => Err(BadHex)
      case Some(packageHash) =>
        Ok(h.(packageFile := dat, packageHash := packageHash, packageSize := fs[dat].size,
              tarFile := TrimSuffix(dat, ".gz"), size := h.size + fs[dat].size))
  }

  /**
    cachedPackage: rebuild an expanded package from the cache directory alone.
    The control and data archives must be there; the signature is optional.
  */
  function CachedEntry(fs: Dir, chk: string, cacheDir: string): (r: Result<Handle>)
    ensures r.Ok? ==> ParseChecksum(chk) == Ok(r.value.controlHash)
    ensures r.Ok? ==> r.value.controlFile == ControlPath(cacheDir, r.value.controlHash) && r.value.controlFile in fs
    ensures r.Ok? ==> r.value.packageFile in fs
    ensures r.Ok? ==> (r.value.signed <==> SignaturePath(cacheDir, r.value.controlHash) in fs)
    ensures r.Ok? ==> r.value.size == r.value.controlSize + r.value.signatureSize + r.value.packageSize
    ensures r.Ok? ==> && r.value.controlSize == fs[r.value.controlFile].size
                      && r.value.packageSize == fs[r.value.packageFile].size
                      && (r.value.signed ==> r.value.signatureSize == fs[SignaturePath(cacheDir, r.value.controlHash)].size)
                      && (!r.value.signed ==> r.value.signatureSize == 0)
    ensures r.Ok? ==> var d := Datahash(r.value.controlFile, fs[r.value.controlFile].datahash);
      && d.Ok? && r.value.packageFile == DataPath(cacheDir, d.value)
      && HexDecode(d.value) == Some(r.value.packageHash)
      && r.value.tarFile == TrimSuffix(r.value.packageFile, ".gz")
    ensures ParseChecksum(chk).Ok? && ControlPath(cacheDir, ParseChecksum(chk).value) !in fs ==> r == Err(NotExist(ControlPath(cacheDir, ParseChecksum(chk).value)))
    ensures ParseChecksum(chk).Err? ==> r == Err(ParseChecksum(chk).error)
  {
    var sum :- ParseChecksum(chk);
    var ctl := ControlPath(cacheDir, sum);
    if ctl !in fs then Err(NotExist(ctl))
    else DataEntry(fs, ControlEntry(fs, sum, cacheDir), cacheDir, fs[ctl].datahash)
  }

  /**
    Every step of cachedPackage succeeds: the checksum parses, the control archive
    is there and declares one datahash, the data archive of that name is there
    and its name is valid hex.
  */
  predicate CacheHit(fs: Dir, chk: string, cacheDir: string)
  {
    match ParseChecksum(chk)
    case Err(_) => false
    case Ok(sum) =>
      var ctl := ControlPath(cacheDir, sum);
      && ctl in fs
      && match Datahash(ctl, fs[ctl].datahash)
         case Err(_) => false
         case Ok(dh) => DataPath(cacheDir, dh) in fs && HexDecode(dh).Some?
  }

  /**
    The lookup succeeds exactly when every step does; otherwise it reports the
    first step that failed.
  */
  lemma CachedEntryIff(fs: Dir, chk: string, cacheDir: string)
    ensures CachedEntry(fs, chk, cacheDir).Ok? <==> CacheHit(fs, chk, cacheDir)
    ensures ParseChecksum(chk).Ok? && ControlPath(cacheDir, ParseChecksum(chk).value) in fs ==>
      var ctl := ControlPath(cacheDir, ParseChecksum(chk).value);
      var d := Datahash(ctl, fs[ctl].datahash);
      && (d.Err? ==> CachedEntry(fs, chk, cacheDir) == Err(d.error))
      && (d.Ok? && DataPath(cacheDir, d.value) !in fs ==> CachedEntry(fs, chk, cacheDir) == Err(NotExist(DataPath(cacheDir, d.value))))
      && (d.Ok? && DataPath(cacheDir, d.value) in fs && HexDecode(d.value).None? ==> CachedEntry(fs, chk, cacheDir) == Err(BadHex))
  {
    if ParseChecksum(chk).Ok? {
      var sum := ParseChecksum(chk).value;
      var ctl := ControlPath(cacheDir, sum);
      if ctl in fs {
        var h0 := ControlEntry(fs, sum, cacheDir);
        assert CachedEntry(fs, chk, cacheDir) == DataEntry(fs, h0, cacheDir, fs[ctl].datahash);
      }
    }
  }

  /** The value cachedPackage builds once every step has succeeded. */
  lemma CachedEntryHit(fs: Dir, chk: string, cacheDir: string, sum: seq<byte>, datahash: string, packageHash: seq<byte>)
    requires ParseChecksum(chk) == Ok(sum)
    requires ControlPath(cacheDir, sum) in fs
    requires Datahash(ControlPath(cacheDir, sum), fs[ControlPath(cacheDir, sum)].datahash) == Ok(datahash)
    requires DataPath(cacheDir, datahash) in fs
    requires HexDecode(datahash) == Some(packageHash)
    ensures var ctl, sig, dat := ControlPath(cacheDir, sum), SignaturePath(cacheDir, sum), DataPath(cacheDir, datahash);
      var sigSize := if sig in fs then fs[sig].size else 0;
      CachedEntry(fs, chk, cacheDir) == Ok(Handle(
        ctl, sum, fs[ctl].size, if sig in fs then sig else "", sig in fs, sigSize,
        dat, packageHash, fs[dat].size, TrimSuffix(dat, ".gz"),
        fs[ctl].size + sigSize + fs[dat].size, fs[ctl].pkgInfo))
  {
    var ctl := ControlPath(cacheDir, sum);
    var h0 := ControlEntry(fs, sum, cacheDir);
    assert CachedEntry(fs, chk, cacheDir) == DataEntry(fs, h0, cacheDir, fs[ctl].datahash);
  }

  /**
    paths.AdvertiseCachedFile: `dst` comes to show what `src` holds (a link to it,
    dangling when `src` is missing).
  */
  function Advertise(fs: Dir, src: string, dst: string): (r: Dir)
    ensures forall p :: p != dst ==> (p in r <==> p in fs) && (p in r ==> r[p] == fs[p])
    ensures src in fs ==> dst in r && r[dst] == fs[src]
    ensures src !in fs ==> dst !in r
  {
    if src in fs then fs[dst := fs[src]] else fs - {dst}
  }

  /**
    cachePackage: move the expansion's files to their content-addressed names
    and point the handle at them.
  */
  function Adopt(fs: Dir, h: Handle, cacheDir: string): (Dir, Handle)
  {
    var ctlDst := ControlPath(cacheDir, h.controlHash);
    var fs1 := Advertise(fs, h.controlFile, ctlDst);
    var sigDst := SignaturePath(cacheDir, h.controlHash);
    var fs2 := if h.signatureFile != "" then Advertise(fs1, h.signatureFile, sigDst) else fs1;
    var datDst := DataPath(cacheDir, HexEncode(h.packageHash));
    var fs3 := Advertise(fs2, h.packageFile, datDst);
    var tarDst := TrimSuffix(datDst, ".gz");
    var fs4 := Advertise(fs3, h.tarFile, tarDst);
    (fs4, h.(controlFile := ctlDst,
             signatureFile := if h.signatureFile != "" then sigDst else h.signatureFile,
             packageFile := datDst, tarFile := tarDst))
  }

  /** The paths adoption writes. */
  function AdoptedPaths(h: Handle, cacheDir: string): set<string>
  {
    {ControlPath(cacheDir, h.controlHash), SignaturePath(cacheDir, h.controlHash),
     DataPath(cacheDir, HexEncode(h.packageHash)), TarPath(cacheDir, HexEncode(h.packageHash))}
  }

  /** The handle's recorded sizes, hashes and metadata agree with the files it names. */
  ghost predicate Describes(fs: Dir, h: Handle)
  {
    && h.controlFile in fs && fs[h.controlFile].size == h.controlSize
    && fs[h.controlFile].pkgInfo == h.pkgInfo
    && fs[h.controlFile].datahash == Some([HexEncode(h.packageHash)])
    && h.signed == (h.signatureFile != "")
    && (h.signed ==> h.signatureFile in fs && fs[h.signatureFile].size == h.signatureSize)
    && (!h.signed ==> h.signatureSize == 0)
    && h.packageFile in fs && fs[h.packageFile].size == h.packageSize
    && h.tarFile in fs
    && h.size == h.controlSize + h.signatureSize + h.packageSize
  }

  lemma EndsWith(p: string, suffix: string, k: nat)
    requires k < |suffix|
    ensures (p + suffix)[|p + suffix| - |suffix| + k] == suffix[k]
  {
  }

  /** The four names of one cache entry never collide: their suffixes differ. */
  lemma AdoptedPathsDistinct(cacheDir: string, ctlHex: string, datHex: string)
    ensures Join(cacheDir, ctlHex + CtlSuffix) != Join(cacheDir, ctlHex + SigSuffix)
    ensures Join(cacheDir, ctlHex + CtlSuffix) != Join(cacheDir, datHex + DatSuffix)
    ensures Join(cacheDir, ctlHex + SigSuffix) != Join(cacheDir, datHex + DatSuffix)
    ensures Join(cacheDir, ctlHex + CtlSuffix) != Join(cacheDir, datHex + ".dat.tar")
    ensures Join(cacheDir, ctlHex + SigSuffix) != Join(cacheDir, datHex + ".dat.tar")
    ensures Join(cacheDir, datHex + DatSuffix) != Join(cacheDir, datHex + ".dat.tar")
  {
    var c, s, d := Join(cacheDir, ctlHex + CtlSuffix), Join(cacheDir, ctlHex + SigSuffix), Join(cacheDir, datHex + DatSuffix);
    var t := Join(cacheDir, datHex + ".dat.tar");
    assert c == (cacheDir + "/" + ctlHex) + CtlSuffix;
    assert s == (cacheDir + "/" + ctlHex) + SigSuffix;
    assert d == (cacheDir + "/" + datHex) + DatSuffix;
    assert t == (cacheDir + "/" + datHex) + ".dat.tar";
    EndsWith(cacheDir + "/" + ctlHex, CtlSuffix, 1);
    EndsWith(cacheDir + "/" + ctlHex, SigSuffix, 1);
    EndsWith(cacheDir + "/" + datHex, DatSuffix, 1);
    EndsWith(cacheDir + "/" + ctlHex, CtlSuffix, 10);
    EndsWith(cacheDir + "/" + ctlHex, SigSuffix, 10);
    EndsWith(cacheDir + "/" + datHex, DatSuffix, 10);
    EndsWith(cacheDir + "/" + datHex, ".dat.tar", 7);
  }

  /** Dropping ".gz" from a data archive's name gives the decompressed tar's name. */
  lemma TrimDataSuffix(cacheDir: string, datahash: string)
    ensures TrimSuffix(DataPath(cacheDir, datahash), ".gz") == TarPath(cacheDir, datahash)
  {
    var p := cacheDir + "/" + datahash + ".dat.tar";
    assert DataPath(cacheDir, datahash) == p + ".gz";
    assert (p + ".gz")[|p + ".gz"| - 3..] == ".gz";
    assert (p + ".gz")[..|p + ".gz"| - 3] == p;
  }

  /**
    Adoption writes the four content-addressed names and nothing else; each name
    shows the file it was made from.
  */
  lemma AdoptWrites(fs: Dir, h: Handle, cacheDir: string)
    requires Describes(fs, h)
    requires h.controlFile !in AdoptedPaths(h, cacheDir) && h.packageFile !in AdoptedPaths(h, cacheDir)
    requires h.tarFile !in AdoptedPaths(h, cacheDir)
    requires h.signed ==> h.signatureFile !in AdoptedPaths(h, cacheDir)
    ensures var (fs', h') := Adopt(fs, h, cacheDir);
      && h'.controlFile == ControlPath(cacheDir, h.controlHash) && fs'[h'.controlFile] == fs[h.controlFile]
      && h'.packageFile == DataPath(cacheDir, HexEncode(h.packageHash)) && fs'[h'.packageFile] == fs[h.packageFile]
      && h'.tarFile == TarPath(cacheDir, HexEncode(h.packageHash)) && fs'[h'.tarFile] == fs[h.tarFile]
      && (h.signed ==> h'.signatureFile == SignaturePath(cacheDir, h.controlHash) && fs'[h'.signatureFile] == fs[h.signatureFile])
      && (!h.signed ==> h'.signatureFile == "" && (SignaturePath(cacheDir, h.controlHash) in fs' <==> SignaturePath(cacheDir, h.controlHash) in fs))
      && (forall p :: p !in AdoptedPaths(h, cacheDir) ==> (p in fs' <==> p in fs) && (p in fs' ==> fs'[p] == fs[p]))
  {
    var ctlHex, datHex := HexEncode(h.controlHash), HexEncode(h.packageHash);
    AdoptedPathsDistinct(cacheDir, ctlHex, datHex);
    TrimDataSuffix(cacheDir, datHex);
  }

  /**
    The round trip between the two directions of the cache: a package adopted by
    cachePackage is found by cachedPackage under the same names, with the same
    hashes, sizes and signature flag, given the index checksum of its control hash
    and no stale signature left under its name.
  */
  lemma AdoptThenLookup(fs: Dir, h: Handle, cacheDir: string, chk: string)
    requires Describes(fs, h)
    requires ParseChecksum(chk) == Ok(h.controlHash)
    requires h.controlFile !in AdoptedPaths(h, cacheDir) && h.packageFile !in AdoptedPaths(h, cacheDir)
    requires h.tarFile !in AdoptedPaths(h, cacheDir)
    requires h.signed ==> h.signatureFile !in AdoptedPaths(h, cacheDir)
    requires !h.signed ==> SignaturePath(cacheDir, h.controlHash) !in fs
    ensures CachedEntry(Adopt(fs, h, cacheDir).0, chk, cacheDir) == Ok(Adopt(fs, h, cacheDir).1)
  {
    var (fs', h') := Adopt(fs, h, cacheDir);
    var ctl := ControlPath(cacheDir, h.controlHash);
    var h0 := h'.(packageFile := "", packageHash := [], packageSize := 0, tarFile := "",
                  size := h.controlSize + h.signatureSize);
    AdoptedControl(fs, h, cacheDir);
    AdoptedData(fs, h, cacheDir);
    assert CachedEntry(fs', chk, cacheDir) == DataEntry(fs', h0, cacheDir, fs'[ctl].datahash);
  }

  /** The control stage of the lookup finds the adopted control file and signature. */
  lemma AdoptedControl(fs: Dir, h: Handle, cacheDir: string)
    requires Describes(fs, h)
    requires h.controlFile !in AdoptedPaths(h, cacheDir) && h.packageFile !in AdoptedPaths(h, cacheDir)
    requires h.tarFile !in AdoptedPaths(h, cacheDir)
    requires h.signed ==> h.signatureFile !in AdoptedPaths(h, cacheDir)
    requires !h.signed ==> SignaturePath(cacheDir, h.controlHash) !in fs
    ensures var (fs', h') := Adopt(fs, h, cacheDir);
      && ControlPath(cacheDir, h.controlHash) in fs'
      && fs'[ControlPath(cacheDir, h.controlHash)].datahash == Some([HexEncode(h.packageHash)])
      && ControlEntry(fs', h.controlHash, cacheDir)
         == h'.(packageFile := "", packageHash := [], packageSize := 0, tarFile := "",
                size := h.controlSize + h.signatureSize)
  {
    AdoptWrites(fs, h, cacheDir);
  }

  /** The data stage of the lookup finds the adopted archive and its decompressed tar. */
  lemma AdoptedData(fs: Dir, h: Handle, cacheDir: string)
    requires Describes(fs, h)
    requires h.controlFile !in AdoptedPaths(h, cacheDir) && h.packageFile !in AdoptedPaths(h, cacheDir)
    requires h.tarFile !in AdoptedPaths(h, cacheDir)
    requires h.signed ==> h.signatureFile !in AdoptedPaths(h, cacheDir)
    ensures var (fs', h') := Adopt(fs, h, cacheDir);
      DataEntry(fs', h'.(packageFile := "", packageHash := [], packageSize := 0, tarFile := "",
                         size := h.controlSize + h.signatureSize),
                cacheDir, Some([HexEncode(h.packageHash)])) == Ok(h')
  {
    AdoptWrites(fs, h, cacheDir);
    var datHex := HexEncode(h.packageHash);
    HexRoundTrip(h.packageHash);
    TrimDataSuffix(cacheDir, datHex);
    var (fs', h') := Adopt(fs, h, cacheDir);
    assert Datahash(h'.controlFile, Some([datHex])) == Ok(datHex);
  }

  /** A single file on the engine's filesystem, for the imperative operations below. */
  class Disk {
    var files: Dir

    constructor (files: Dir)
      ensures this.files == files
    {
      this.files := files;
    }

    /** Files written by code outside this model (the temporary files of an expansion). */
    method Write(written: Dir)
      modifies this
      ensures files == old(files) + written
    {
      files := files + written;
    }

    /** paths.AdvertiseCachedFile. */
    method AdvertiseCachedFile(src: string, dst: string)
      modifies this
      ensures files == Advertise(old(files), src, dst)
    {
      if src in files {
        files := files[dst := files[src]];
      } else {
        files := files - {dst};
      }
    }
  }

  /** expandapk.APKExpanded, whose fields the cache fills in and rewrites one at a time. */
  class Expanded {
    var controlFile: string
    var controlHash: seq<byte>
    var controlSize: nat
    var signatureFile: string
    var signed: bool
    var signatureSize: nat
    var packageFile: string
    var packageHash: seq<byte>
    var packageSize: nat
    var tarFile: string
    var size: nat
    var pkgInfo: Option<PkgInfo>

    function Value(): Handle
      reads this
    {
      Handle(controlFile, controlHash, controlSize, signatureFile, signed, signatureSize,
             packageFile, packageHash, packageSize, tarFile, size, pkgInfo)
    }

    /** The zero value `expandapk.APKExpanded{}`. */
    constructor ()
      ensures Value() == Handle("", [], 0, "", false, 0, "", [], 0, "", 0, None)
    {
      controlFile, controlHash, controlSize := "", [], 0;
      signatureFile, signed, signatureSize := "", false, 0;
      packageFile, packageHash, packageSize := "", [], 0;
      tarFile, size, pkgInfo := "", 0, None;
    }

    /** Every field at once, as expandapk.ExpandApk fills them (outside this model). */
    method Load(h: Handle)
      modifies this
      ensures Value() == h
    {
      controlFile, controlHash, controlSize := h.controlFile, h.controlHash, h.controlSize;
      signatureFile, signed, signatureSize := h.signatureFile, h.signed, h.signatureSize;
      packageFile, packageHash, packageSize := h.packageFile, h.packageHash, h.packageSize;
      tarFile, size, pkgInfo := h.tarFile, h.size, h.pkgInfo;
    }

    /** The control archive's fields, and its size added to the total. */
    method SetControl(ctl: string, checksum: seq<byte>, cf: FileInfo)
      modifies this
      ensures Value() == old(Value()).(controlFile := ctl, controlHash := checksum, controlSize := cf.size,
                                       pkgInfo := cf.pkgInfo, size := old(size) + cf.size)
    {
      controlFile := ctl;
      controlHash := checksum;
      controlSize := cf.size;
      pkgInfo := cf.pkgInfo;
      size := size + cf.size;
    }

    /** The signature's fields, and its size added to the total. */
    method SetSignature(sig: string, sigSize: nat)
      modifies this
      ensures Value() == old(Value()).(signatureFile := sig, signed := true, signatureSize := sigSize,
                                       size := old(size) + sigSize)
    {
      signatureFile := sig;
      signed := true;
      size := size + sigSize;
      signatureSize := sigSize;
    }

    /** The data archive's fields, and its size added to the total. */
    method SetPackage(dat: string, datSize: nat)
      modifies this
      ensures Value() == old(Value()).(packageFile := dat, packageSize := datSize, size := old(size) + datSize)
    {
      packageFile := dat;
      packageSize := datSize;
      size := size + datSize;
    }

    /** cachePackage: rename the expansion's files into the cache, field by field. */
    method CachePackage(disk: Disk, cacheDir: string)
      modifies this, disk
      ensures (disk.files, Value()) == Adopt(old(disk.files), old(Value()), cacheDir)
    {
      var ctlHex := HexEncode(controlHash);
      var ctlDst := Join(cacheDir, ctlHex + CtlSuffix);
      disk.AdvertiseCachedFile(controlFile, ctlDst);
      controlFile := ctlDst;

      if signatureFile != "" {
        var sigDst := Join(cacheDir, ctlHex + SigSuffix);
        disk.AdvertiseCachedFile(signatureFile, sigDst);
        signatureFile := sigDst;
      }

      var datHex := HexEncode(packageHash);
      var datDst := Join(cacheDir, datHex + DatSuffix);
      disk.AdvertiseCachedFile(packageFile, datDst);
      packageFile := datDst;

      var tarDst := TrimSuffix(packageFile, ".gz");
      disk.AdvertiseCachedFile(tarFile, tarDst);
      tarFile := tarDst;
    }

    /** The data archive's part of cachedPackage: datahash, stat and hex decoding. */
    method LoadData(disk: Disk, cacheDir: string, values: Option<seq<string>>) returns (failure: Option<Error>)
      modifies this
      ensures var d := DataEntry(disk.files, old(Value()), cacheDir, values);
        && (failure.None? <==> d.Ok?)
        && (d.Ok? ==> Value() == d.value)
        && (d.Err? ==> failure == Some(d.error))
    {
      var datahash := Datahash(controlFile, values);
      if datahash.Err? {
        return Some(datahash.error);
      }
      var dat := Join(cacheDir, datahash.value + DatSuffix);
      if dat !in disk.files {
        return Some(NotExist(dat));
      }
      SetPackage(dat, disk.files[dat].size);
      var decoded := HexDecode(datahash.value);
      if decoded.None? {
        return Some(BadHex);
      }
      packageHash := decoded.value;
      tarFile := TrimSuffix(packageFile, ".gz");
      return None;
    }
  }

  /** cachedPackage: stat the cache entry's files and fill a fresh handle from them. */
  method CachedPackage(disk: Disk, chk: string, cacheDir: string) returns (r: Result<Expanded>)
    ensures r.Err? ==> CachedEntry(disk.files, chk, cacheDir) == Err(r.error)
    ensures r.Ok? ==> fresh(r.value) && CachedEntry(disk.files, chk, cacheDir) == Ok(r.value.Value())
  {
    var decoded := ParseChecksum(chk);
    if decoded.Err? {
      return Err(decoded.error);
    }
    var checksum := decoded.value;
    var pkgHexSum := HexEncode(checksum);

    var exp := new Expanded();

    var ctl := Join(cacheDir, pkgHexSum + CtlSuffix);
    if ctl !in disk.files {
      return Err(NotExist(ctl));
    }
    var cf := disk.files[ctl];
    exp.SetControl(ctl, checksum, cf);

    var sig := Join(cacheDir, pkgHexSum + SigSuffix);
    if sig in disk.files {
      exp.SetSignature(sig, disk.files[sig].size);
    }
    assert exp.Value() == ControlEntry(disk.files, checksum, cacheDir);

    var failure := exp.LoadData(disk, cacheDir, cf.datahash);
    if failure.Some? {
      return Err(failure.value);
    }
    return Ok(exp);
  }
}
