/**
 The directory that holds the target pin, as the kernel sees it.

 Every file is an inode with two images: `vol`, what a read returns now, and
 `dur`, what survives a power loss. An inode that is not `clean` may have
 anything on disk. The directory has a volatile and a durable entry table, and
 the directory itself may not be durable yet when it has just been created.
 */
module PinFs {
  import opened Prelude

  datatype Name = Pin | Temp(id: nat)

  datatype File = File(data: seq<byte>, mode: nat)

  // `creator` is the process that created the inode; None for files that were
  // there at the start.
  datatype Inode = Inode(vol: File, dur: File, clean: bool, creator: Option<nat>)

  datatype HandleKind = PinFd | TmpFd | DirFd

  datatype Handle = Handle(pid: nat, kind: HandleKind)

  // An inode number is an index into `inodes`; numbers are never reused.
  datatype Fs = Fs(
    dirExists: bool,
    dirDurable: bool,
    vol: map<Name, nat>,
    dur: map<Name, nat>,
    inodes: seq<Inode>,
    handles: set<Handle>)

  const PRIVATE_MODE: nat := 384 // 0600, the mode os.CreateTemp uses
  const PIN_MODE: nat := 420     // 0644

  ghost predicate WellFormed(fs: Fs) {
    && (forall n <- fs.vol :: fs.vol[n] < |fs.inodes|)
    && (forall n <- fs.dur :: fs.dur[n] < |fs.inodes|)
    && (fs.dirDurable ==> fs.dirExists)
    && (!fs.dirExists ==> fs.vol == map[] && fs.dur == map[])
  }

  // The pin name leads to this inode for readers.
  predicate PinIs(fs: Fs, i: nat) {
    Pin in fs.vol && fs.vol[Pin] == i
  }

  // The pin name leads to this inode after a power loss.
  predicate PinDurablyIs(fs: Fs, i: nat) {
    fs.dirDurable && Pin in fs.dur && fs.dur[Pin] == i
  }

  // A reader that opens the pin now reads exactly `data`.
  predicate PinHolds(fs: Fs, data: seq<byte>) {
    Pin in fs.vol && fs.vol[Pin] < |fs.inodes| && fs.inodes[fs.vol[Pin]].vol.data == data
  }

  // A reader that opens the pin after a power loss reads exactly `data`.
  predicate PinDurablyHolds(fs: Fs, data: seq<byte>) {
    && fs.dirDurable
    && Pin in fs.dur
    && fs.dur[Pin] < |fs.inodes|
    && fs.inodes[fs.dur[Pin]].clean
    && fs.inodes[fs.dur[Pin]].dur.data == data
  }

  // The pin is on disk: its directory, its entry and its file.
  predicate PinOnDisk(fs: Fs) {
    Pin in fs.vol && PinDurablyIs(fs, fs.vol[Pin]) && fs.vol[Pin] < |fs.inodes| && fs.inodes[fs.vol[Pin]].clean
  }

  // --- system calls, when they succeed ---

  function MkdirAll(fs: Fs): Fs {
    if fs.dirExists then fs else fs.(dirExists := true, dirDurable := false)
  }

  function CreateTemp(fs: Fs, p: nat, id: nat): Fs {
    var inode := Inode(File([], PRIVATE_MODE), File([], 0), false, Some(p));
    fs.(vol := fs.vol[Temp(id) := |fs.inodes|],
        inodes := fs.inodes + [inode],
        handles := fs.handles + {Handle(p, TmpFd)})
  }

  // Chmod and write: the volatile image changes, the disk is behind.
  function Edit(fs: Fs, i: nat, file: File): Fs
    requires i < |fs.inodes|
  {
    fs.(inodes := fs.inodes[i := fs.inodes[i].(vol := file, clean := false)])
  }

  function SyncFile(fs: Fs, i: nat): Fs
    requires i < |fs.inodes|
  {
    fs.(inodes := fs.inodes[i := fs.inodes[i].(dur := fs.inodes[i].vol, clean := true)])
  }

  function LinkPin(fs: Fs, i: nat): Fs {
    fs.(vol := fs.vol[Pin := i])
  }

  function SyncDir(fs: Fs): Fs {
    fs.(dur := fs.vol)
  }

  function Unlink(fs: Fs, n: Name): Fs {
    fs.(vol := fs.vol - {n})
  }

  function OpenHandle(fs: Fs, h: Handle): Fs {
    fs.(handles := fs.handles + {h})
  }

  function CloseHandle(fs: Fs, h: Handle): Fs {
    fs.(handles := fs.handles - {h})
  }

  // --- what the kernel and the machine do on their own ---

  // The kernel may put anything on disk for an inode that is not clean.
  function FlushInode(fs: Fs, i: nat, file: File): Fs {
    if i < |fs.inodes| && !fs.inodes[i].clean then
      fs.(inodes := fs.inodes[i := fs.inodes[i].(dur := file)])
    else
      fs
  }

  // Directory entries reach the disk one by one, in any order.
  function FlushEntry(fs: Fs, n: Name): Fs {
    if n in fs.vol then fs.(dur := fs.dur[n := fs.vol[n]]) else fs.(dur := fs.dur - {n})
  }

  function FlushParent(fs: Fs): Fs {
    fs.(dirDurable := fs.dirExists)
  }

  function CloseAll(fs: Fs, p: nat): Fs {
    fs.(handles := set h <- fs.handles | h.pid != p)
  }

  function PowerLoss(fs: Fs): Fs {
    var entries := if fs.dirDurable then fs.dur else map[];
    Fs(fs.dirDurable, fs.dirDurable, entries, entries,
       seq(|fs.inodes|, i requires 0 <= i < |fs.inodes| =>
         fs.inodes[i].(vol := fs.inodes[i].dur, clean := true)),
       {})
  }
}
