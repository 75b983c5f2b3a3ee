/** The fields of archive/tar headers that the engine sets or reads. */
module Tar {

  /** Header type flags (tar.TypeReg, tar.TypeDir, ...). */
  datatype TypeFlag = TypeReg | TypeLink | TypeSymlink | TypeChar | TypeBlock | TypeDir | TypeFifo

  datatype Header = Header(name: string, typeflag: TypeFlag, mode: nat, uid: nat, gid: nat)
}
