/** The file system as the download engine sees it, and the value view of the
    operations of `PartFile`.

    A destination path never ends in ".part", so the working file of a
    destination and the destination itself live in two separate maps. */
module Disks {
  import opened Wrappers

  type Bytes = seq<bv8>
  type Path = string

  datatype Disk = Disk(parts: map<Path, Bytes>, files: map<Path, Bytes>)

  /** The counters of an open PartFile. */
  datatype Handle = Handle(destPath: Path, resumeFrom: nat, bytesOnDisk: nat, lastFlush: nat)

  /** What the operating system does with resize(0) followed by seek(0). */
  datatype TruncateOutcome = Truncated | ResizeFailed | SeekFailed

  const FLUSH_INTERVAL_BYTES: nat := 4 * 1024 * 1024

  /** Both disks hold the same files, except possibly at the paths in `paths`. */
  ghost predicate SameOutside(d: Disk, d': Disk, paths: set<Path>) {
    forall p :: p !in paths ==>
      && (p in d.parts <==> p in d'.parts)
      && (p in d.parts ==> d.parts[p] == d'.parts[p])
      && (p in d.files <==> p in d'.files)
      && (p in d.files ==> d.files[p] == d'.files[p])
  }

  function RemovePart(d: Disk, p: Path): Disk {
    d.(parts := d.parts - {p})
  }

  /** A leftover that is too small to be worth a Range request, or at least as
      long as the whole file is believed to be. */
  predicate IsJunk(d: Disk, p: Path, minResume: nat, totalHint: int) {
    p in d.parts && (|d.parts[p]| < minResume || (totalHint > 0 && |d.parts[p]| >= totalHint))
  }

  /** open(): the new disk, and the handle unless the operating system refuses
      (`ok` is false). */
  function Opened(d: Disk, p: Path, minResume: nat, totalHint: int, ok: bool): (r: (Disk, Option<Handle>))
    ensures SameOutside(d, r.0, {p}) && r.0.files == d.files
    ensures p in d.parts && !IsJunk(d, p, minResume, totalHint) ==> p in r.0.parts && r.0.parts[p] == d.parts[p]
    ensures p !in d.parts || IsJunk(d, p, minResume, totalHint) ==>
              (p in r.0.parts <==> ok) && (ok ==> r.0.parts[p] == [])
    ensures r.1.Some? <==> ok
    ensures ok ==> p in r.0.parts && r.1.value.destPath == p
                   && r.1.value.resumeFrom == r.1.value.bytesOnDisk == |r.0.parts[p]|
    ensures ok && r.1.value.resumeFrom > 0 ==>
              minResume <= r.1.value.resumeFrom && (totalHint > 0 ==> r.1.value.resumeFrom < totalHint)
  {
    var d1 := if IsJunk(d, p, minResume, totalHint) then RemovePart(d, p) else d;
    var existing := if p in d1.parts then |d1.parts[p]| else 0;
    if !ok then (d1, None)
    else (if existing > 0 then d1 else d1.(parts := d1.parts[p := []]),
          Some(Handle(p, existing, existing, existing)))
  }

  /** write(): the operating system takes the first `taken` bytes of the chunk.
      A short write leaves the counters alone. */
  function Written(d: Disk, h: Handle, chunk: Bytes, taken: nat): (r: (Disk, Handle))
    requires h.destPath in d.parts && taken <= |chunk|
    ensures SameOutside(d, r.0, {h.destPath}) && r.0.files == d.files
    ensures h.destPath in r.0.parts && r.0.parts[h.destPath] == d.parts[h.destPath] + chunk[..taken]
    ensures r.1.destPath == h.destPath && r.1.resumeFrom == h.resumeFrom
    ensures r.1.bytesOnDisk == h.bytesOnDisk + (if taken == |chunk| then taken else 0)
    ensures var unflushed := r.1.bytesOnDisk - h.lastFlush;
            r.1.lastFlush ==
              if taken == |chunk| > 0 && unflushed >= FLUSH_INTERVAL_BYTES then r.1.bytesOnDisk else h.lastFlush
  {
    var d' := d.(parts := d.parts[h.destPath := d.parts[h.destPath] + chunk[..taken]]);
    if taken != |chunk| || chunk == [] then (d', h)
    else
      var n := h.bytesOnDisk + taken;
      (d', h.(bytesOnDisk := n, lastFlush := if n - h.lastFlush >= FLUSH_INTERVAL_BYTES then n else h.lastFlush))
  }

  /** truncate(): a failed seek has already emptied the file, but the counters
      still describe the old content. */
  function TruncatedTo0(d: Disk, h: Handle, outcome: TruncateOutcome): (r: (Disk, Handle))
    requires h.destPath in d.parts
    ensures SameOutside(d, r.0, {h.destPath}) && r.0.files == d.files
    ensures h.destPath in r.0.parts
    ensures r.0.parts[h.destPath] == if outcome == ResizeFailed then d.parts[h.destPath] else []
    ensures r.1 == if outcome == Truncated then Handle(h.destPath, 0, 0, 0) else h
  {
    match outcome
    case ResizeFailed => (d, h)
    case SeekFailed => (d.(parts := d.parts[h.destPath := []]), h)
    case Truncated => (d.(parts := d.parts[h.destPath := []]), Handle(h.destPath, 0, 0, 0))
  }

  /** finalize(): the destination is replaced; when the rename fails neither the
      old destination nor the working file survives. */
  function Finalized(d: Disk, p: Path, renameOk: bool): (r: Disk)
    requires p in d.parts
    ensures SameOutside(d, r, {p}) && p !in r.parts
    ensures p in r.files <==> renameOk
    ensures renameOk ==> r.files[p] == d.parts[p]
  {
    Disk(d.parts - {p}, if renameOk then d.files[p := d.parts[p]] else d.files - {p})
  }
}

/** The mutable `PartFile` object over a mutable file system. */
module PartFiles {
  import opened Wrappers
  import opened Disks

  class FileSystem {
    var disk: Disk
    constructor (disk: Disk)
      ensures this.disk == disk
    {
      this.disk := disk;
    }
  }

  class PartFile {
    const fs: FileSystem
    const destPath: Path
    var isOpen: bool
    var resumeFrom: nat
    var bytesOnDisk: nat
    var lastFlush: nat

    constructor (fs: FileSystem, destPath: Path)
      ensures this.fs == fs && this.destPath == destPath && !isOpen && Valid()
      ensures bytesOnDisk == 0 && resumeFrom == 0
    {
      this.fs := fs;
      this.destPath := destPath;
      isOpen := false;
      resumeFrom, bytesOnDisk, lastFlush := 0, 0, 0;
    }

    ghost predicate Valid()
      reads this, fs
    {
      && (isOpen ==> destPath in fs.disk.parts)
      && lastFlush <= bytesOnDisk
    }

    ghost function View(): Handle
      reads this
    {
      Handle(destPath, resumeFrom, bytesOnDisk, lastFlush)
    }

    /** `canOpen` is the operating system's answer to QFile::open. */
    method Open(minResumeBytes: nat, totalHint: int, canOpen: bool) returns (ok: bool)
      requires Valid()
      modifies this, fs
      ensures Valid() && isOpen == ok == canOpen
      ensures fs.disk == Opened(old(fs.disk), destPath, minResumeBytes, totalHint, canOpen).0
      ensures ok ==> Some(View()) == Opened(old(fs.disk), destPath, minResumeBytes, totalHint, canOpen).1
    {
      isOpen := false;
      var existing := 0;
      if destPath in fs.disk.parts {
        existing := |fs.disk.parts[destPath]|;
        var tooSmall := existing < minResumeBytes;
        var tooLarge := totalHint > 0 && existing >= totalHint;
        if tooSmall || tooLarge {
          fs.disk := RemovePart(fs.disk, destPath);
          existing := 0;
        }
      }
      if !canOpen {
        return false;
      }
      if existing == 0 {
        fs.disk := fs.disk.(parts := fs.disk.parts[destPath := []]);
      }
      isOpen := true;
      resumeFrom, bytesOnDisk, lastFlush := existing, existing, existing;
      return true;
    }

    /** `taken` is how many bytes QFile::write accepts. */
    method Write(chunk: Bytes, taken: nat) returns (ok: bool)
      requires Valid() && taken <= |chunk|
      modifies this, fs
      ensures Valid() && isOpen == old(isOpen)
      ensures ok <==> old(isOpen) && taken == |chunk|
      ensures !old(isOpen) ==> fs.disk == old(fs.disk) && View() == old(View())
      ensures old(isOpen) ==> (fs.disk, View()) == Written(old(fs.disk), old(View()), chunk, taken)
    {
      if !isOpen {
        return false;
      }
      if chunk == [] {
        assert fs.disk.parts[destPath] + chunk[..0] == fs.disk.parts[destPath];
        assert fs.disk.parts[destPath := fs.disk.parts[destPath]] == fs.disk.parts;
        return true;
      }
      fs.disk := fs.disk.(parts := fs.disk.parts[destPath := fs.disk.parts[destPath] + chunk[..taken]]);
      if taken != |chunk| {
        return false;
      }
      bytesOnDisk := bytesOnDisk + taken;
      if bytesOnDisk - lastFlush >= FLUSH_INTERVAL_BYTES {
        lastFlush := bytesOnDisk;
      }
      return true;
    }

    method Truncate(outcome: TruncateOutcome) returns (ok: bool)
      requires Valid()
      modifies this, fs
      ensures Valid() && isOpen == old(isOpen)
      ensures ok <==> old(isOpen) && outcome == Truncated
      ensures !old(isOpen) ==> fs.disk == old(fs.disk) && View() == old(View())
      ensures old(isOpen) ==> (fs.disk, View()) == TruncatedTo0(old(fs.disk), old(View()), outcome)
    {
      if !isOpen {
        return false;
      }
      if outcome == ResizeFailed {
        return false;
      }
      fs.disk := fs.disk.(parts := fs.disk.parts[destPath := []]);
      if outcome == SeekFailed {
        return false;
      }
      resumeFrom, bytesOnDisk, lastFlush := 0, 0, 0;
      return true;
    }

    method Flush(accepted: bool) returns (ok: bool)
      requires Valid()
      modifies this
      ensures Valid() && isOpen == old(isOpen) && resumeFrom == old(resumeFrom) && bytesOnDisk == old(bytesOnDisk)
      ensures ok <==> isOpen && accepted
      ensures lastFlush == if ok then bytesOnDisk else old(lastFlush)
    {
      ok := isOpen && accepted;
      if ok {
        lastFlush := bytesOnDisk;
      }
    }

    method Finalize(renameOk: bool) returns (ok: bool)
      requires Valid()
      modifies this, fs
      ensures Valid() && !isOpen && View() == old(View())
      ensures ok <==> old(isOpen) && renameOk
      ensures fs.disk == if old(isOpen) then Finalized(old(fs.disk), destPath, renameOk) else old(fs.disk)
    {
      if !isOpen {
        return false;
      }
      isOpen := false;
      ghost var before := fs.disk;
      if destPath in fs.disk.files {
        fs.disk := fs.disk.(files := fs.disk.files - {destPath});
      }
      if !renameOk {
        fs.disk := RemovePart(fs.disk, destPath);
        assert fs.disk.files == before.files - {destPath};
        return false;
      }
      fs.disk := Disk(fs.disk.parts - {destPath}, fs.disk.files[destPath := fs.disk.parts[destPath]]);
      assert fs.disk.files == before.files[destPath := before.parts[destPath]];
      return true;
    }

    method Discard()
      requires Valid()
      modifies this, fs
      ensures Valid() && !isOpen && View() == old(View())
      ensures fs.disk == RemovePart(old(fs.disk), destPath)
    {
      isOpen := false;
      fs.disk := RemovePart(fs.disk, destPath);
    }
  }
}
