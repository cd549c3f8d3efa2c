/**
 An incoming transfer on disk: what it creates, and how dropping it unfinished undoes that.
 */
module FileUndo {
  import opened Common
  import opened Manifest

  type Path = seq<string>

  datatype Inode = FileInode(id: nat, content: Bytes) | DirInode | LinkInode

  type Fs = map<Path, Inode>

  function Parent(path: Path): Path
    requires path != []
  {
    path[..|path| - 1]
  }

  predicate IsDir(fs: Fs, path: Path) {
    path in fs && fs[path].DirInode?
  }

  /** Everything but the root lies in a directory. */
  ghost predicate Rooted(fs: Fs) {
    IsDir(fs, []) && forall p {:trigger Parent(p)} :: p in fs && p != [] ==> IsDir(fs, Parent(p))
  }

  predicate Empty(fs: Fs, dir: Path) {
    forall p {:trigger Parent(p)} :: p in fs && p != [] ==> Parent(p) != dir
  }

  /** What obtaining a trackable handle on a file that was just created does. */
  datatype Tracking = Tracked | GuardRemoves | Leaks

  /** What the system does for one entry: where directory creation stops, if it does, and how the file fares. */
  datatype Luck = Luck(stopAt: Option<nat>, opens: bool, tracking: Tracking)

  /** `fs` is `before` plus exactly what the transfer created and, at worst, files it lost track of. */
  ghost predicate Undoable(before: Fs, fs: Fs, files: map<Path, nat>, dirs: set<Path>, leaked: set<Path>) {
    && Rooted(before) && Rooted(fs)
    && fs.Keys == before.Keys + files.Keys + dirs + leaked
    && files.Keys + dirs + leaked !! before.Keys && files.Keys !! dirs && (files.Keys + dirs) !! leaked
    && (forall p :: p in before ==> fs[p] == before[p])
    && (forall p :: p in files ==> fs[p].FileInode? && fs[p].id == files[p])
    && (forall p :: p in dirs ==> fs[p].DirInode?)
    && (forall p :: p in leaked ==> fs[p].FileInode?)
  }

  /** Of the directories a transfer created, a deepest one holds nothing once the files are gone. */
  lemma DeepestIsEmpty(before: Fs, fs: Fs, dirs: set<Path>, dir: Path)
    requires Undoable(before, fs, map[], dirs, {}) && dir in dirs && forall d :: d in dirs ==> |d| <= |dir|
    ensures Empty(fs, dir) && Undoable(before, fs - {dir}, map[], dirs - {dir}, {})
  {
    forall p | p in fs && p != []
      ensures Parent(p) != dir
    {
      if p in before {
        assert IsDir(before, Parent(p));
      } else {
        assert |p| <= |dir|;
      }
    }
  }

  lemma RootedWith(fs: Fs, path: Path, node: Inode)
    requires Rooted(fs) && path !in fs && path != [] && IsDir(fs, Parent(path))
    ensures Rooted(fs[path := node])
  {
    var next := fs[path := node];
    forall p | p in next && p != []
      ensures IsDir(next, Parent(p))
    {
      assert IsDir(fs, Parent(p));
    }
  }

  /** One new directory, file or leaked file, recorded as such. */
  lemma CreatingIsUndoable(before: Fs, fs: Fs, files: map<Path, nat>, dirs: set<Path>, leaked: set<Path>, path: Path, id: nat)
    requires Undoable(before, fs, files, dirs, leaked) && path !in fs && path != [] && IsDir(fs, Parent(path))
    ensures Undoable(before, fs[path := DirInode], files, dirs + {path}, leaked)
    ensures Undoable(before, fs[path := FileInode(id, [])], files[path := id], dirs, leaked)
    ensures Undoable(before, fs[path := FileInode(id, [])], files, dirs, leaked + {path})
  {
    RootedWith(fs, path, DirInode);
    RootedWith(fs, path, FileInode(id, []));
    assert path !in before && path !in files && path !in dirs && path !in leaked;
  }

  lemma RootedAfterRewrite(fs: Fs, path: Path, node: Inode)
    requires Rooted(fs) && path in fs && fs[path].FileInode?
    ensures Rooted(fs[path := node])
  {
    var next := fs[path := node];
    forall p | p in next && p != []
      ensures IsDir(next, Parent(p))
    {
      assert IsDir(fs, Parent(p));
    }
  }

  lemma AppendingIsUndoable(before: Fs, fs: Fs, files: map<Path, nat>, dirs: set<Path>, leaked: set<Path>, path: Path, data: Bytes)
    requires Undoable(before, fs, files, dirs, leaked) && path in files
    ensures Undoable(before, fs[path := FileInode(fs[path].id, data)], files, dirs, leaked)
  {
    RootedAfterRewrite(fs, path, FileInode(fs[path].id, data));
    assert path !in before && path !in dirs && path !in leaked;
  }

  /** Everything but the files that are still the ones created and can be removed. */
  function WithoutCreated(fs: Fs, files: map<Path, nat>, stuck: set<Path>): Fs {
    map p | p in fs && !(p in files && p !in stuck && fs[p].FileInode? && fs[p].id == files[p]) :: fs[p]
  }

  lemma SweepingIsUndoable(before: Fs, fs: Fs, files: map<Path, nat>, dirs: set<Path>, stuck: set<Path>)
    requires Undoable(before, fs, files, dirs, {}) && stuck !! files.Keys
    ensures Undoable(before, WithoutCreated(fs, files, stuck), map[], dirs, {})
  {
    var next := WithoutCreated(fs, files, stuck);
    assert next.Keys == fs.Keys - files.Keys;
    forall p | p in next && p != []
      ensures IsDir(next, Parent(p))
    {
      assert IsDir(fs, Parent(p));
    }
    assert IsDir(fs, []);
  }

  lemma {:induction false} HasDeepest(dirs: set<Path>)
    requires dirs != {}
    ensures exists d :: d in dirs && forall e :: e in dirs ==> |e| <= |d|
    decreases dirs
  {
    var x :| x in dirs;
    if dirs == {x} {
      assert forall e :: e in dirs ==> |e| <= |x|;
    } else {
      assert dirs - {x} != {};
      HasDeepest(dirs - {x});
      var d :| d in dirs - {x} && forall e :: e in dirs - {x} ==> |e| <= |d|;
      var best := if |x| > |d| then x else d;
      assert best in dirs && forall e :: e in dirs ==> |e| <= |best|;
    }
  }

  /** A file still being received: its announced size, how far it has come and what went into its hash. */
  datatype Incoming = Incoming(expected: nat, offset: nat, hashed: Bytes)

  /** A file being received holds what was hashed, or more if a write stopped half way. */
  ghost predicate Receiving(fs: Fs, files: map<Path, Incoming>, torn: set<Path>) {
    forall p :: p in files ==>
      && files[p].offset == |files[p].hashed| <= files[p].expected
      && p in fs && fs[p].FileInode?
      && if p in torn then |fs[p].content| > |files[p].hashed| else fs[p].content == files[p].hashed
  }

  /** What the manifest lists is there: a directory, or a tracked file ready to be received. */
  ghost predicate Prepared(fs: Fs, created: map<Path, nat>, files: map<Path, Incoming>, target: Path, kind: Kind, size: nat) {
    if kind == Directory then IsDir(fs, target)
    else target in created && target in files && files[target] == Incoming(size, 0, [])
  }

  ghost predicate AllPrepared(fs: Fs, created: map<Path, nat>, files: map<Path, Incoming>, destination: Path, entries: seq<(Path, Kind, nat)>) {
    forall e :: e in entries ==> Prepared(fs, created, files, destination + e.0, e.1, e.2)
  }

  lemma PreparedMore(was: Fs, fs: Fs, known: map<Path, nat>, created: map<Path, nat>, open: map<Path, Incoming>, files: map<Path, Incoming>,
                     destination: Path, entries: seq<(Path, Kind, nat)>, i: nat)
    requires Extends(was, fs) && Extends(known, created) && Extends(open, files) && i < |entries|
    requires AllPrepared(was, known, open, destination, entries[..i])
    requires Prepared(fs, created, files, destination + entries[i].0, entries[i].1, entries[i].2)
    ensures AllPrepared(fs, created, files, destination, entries[..i + 1])
  {
    assert entries[..i + 1] == entries[..i] + [entries[i]];
  }

  /** Nothing is lost or changed. */
  ghost predicate Extends<K, V>(a: map<K, V>, b: map<K, V>) {
    forall k :: k in a ==> k in b && b[k] == a[k]
  }

  /** The chunk is the next one of the file and within its announced size. */
  predicate Takes(files: map<Path, Incoming>, target: Path, offset: nat, data: Bytes) {
    && target in files && 0 < |data| <= MAX_CHUNK && offset == files[target].offset
    && offset + |data| <= U64_MAX && offset + |data| <= files[target].expected
  }

  function Taken(files: map<Path, Incoming>, target: Path, data: Bytes): map<Path, Incoming>
    requires target in files
  {
    files[target := files[target].(offset := files[target].offset + |data|, hashed := files[target].hashed + data)]
  }

  lemma TakingStillReceives(fs: Fs, files: map<Path, Incoming>, torn: set<Path>, target: Path, id: nat, offset: nat, data: Bytes)
    requires Receiving(fs, files, torn) && Takes(files, target, offset, data)
    ensures Receiving(fs[target := FileInode(id, fs[target].content + data)], Taken(files, target, data), torn)
  {
  }

  lemma CreatingStillReceives(fs: Fs, files: map<Path, Incoming>, torn: set<Path>, target: Path, id: nat, size: nat)
    requires Receiving(fs, files, torn) && target !in fs && target !in torn
    ensures Receiving(fs[target := FileInode(id, [])], files, torn)
    ensures Receiving(fs[target := FileInode(id, [])], files[target := Incoming(size, 0, [])], torn)
  {
  }

  lemma FailingStillReceives(fs: Fs, files: map<Path, Incoming>, torn: set<Path>, target: Path, id: nat, part: Bytes)
    requires Receiving(fs, files, torn) && target in files
    ensures Receiving(fs[target := FileInode(id, fs[target].content + part)], files, if part != [] then torn + {target} else torn)
  {
  }

  /** A call that fails, something else where a directory or the file has to be, or a file that cannot be tracked. */
  predicate Hindered(fs: Fs, destination: Path, path: Path, kind: Kind, luck: Luck)
    requires path != []
  {
    var target := destination + path;
    var folder := if kind == Directory then target else Parent(target);
    || luck.stopAt.Some?
    || (exists n :: |destination| < n <= |folder| && folder[..n] in fs && !IsDir(fs, folder[..n]))
    || (kind == File && (!luck.opens || target in fs || luck.tracking != Tracked))
  }

  /** Whatever is new lies on the way to one of the entries. */
  ghost predicate OnlyFor(before: Fs, fs: Fs, destination: Path, entries: seq<(Path, Kind, nat)>) {
    forall p :: p in fs && p !in before ==> exists e :: e in entries && p <= destination + e.0
  }

  lemma OnlyForMore(before: Fs, found: Fs, fs: Fs, destination: Path, entries: seq<(Path, Kind, nat)>, i: nat)
    requires i < |entries| && OnlyFor(before, found, destination, entries[..i])
    requires forall p :: p in fs && p !in found ==> p <= destination + entries[i].0
    ensures OnlyFor(before, fs, destination, entries[..i + 1])
  {
    assert entries[..i + 1] == entries[..i] + [entries[i]];
    forall p | p in fs && p !in before
      ensures exists e :: e in entries[..i + 1] && p <= destination + e.0
    {
      if p in found {
        var e :| e in entries[..i] && p <= destination + e.0;
        assert e in entries[..i + 1];
      } else {
        assert entries[i] in entries[..i + 1];
      }
    }
  }

  class IncomingTransfer {
    var fs: Fs
    var freshId: nat
    const destination: Path
    var createdFiles: map<Path, nat>
    var createdDirs: set<Path>
    var files: map<Path, Incoming>
    var finished: bool
    ghost const before: Fs
    ghost var leaked: set<Path>
    ghost var torn: set<Path>

    ghost predicate Valid()
      reads this
    {
      && Undoable(before, fs, createdFiles, createdDirs, leaked)
      && IsDir(fs, destination)
      && files.Keys <= createdFiles.Keys && torn <= createdFiles.Keys && Receiving(fs, files, torn)
    }

    constructor (fs: Fs, freshId: nat, destination: Path)
      requires Rooted(fs) && IsDir(fs, destination)
      ensures Valid() && before == fs && this.fs == fs && this.destination == destination
      ensures createdFiles == map[] && createdDirs == {} && files == map[] && leaked == {} && torn == {} && !finished
    {
      this.fs, this.freshId, this.destination := fs, freshId, destination;
      createdFiles, createdDirs, files, finished := map[], {}, map[], false;
      before, leaked, torn := fs, {}, {};
    }

    /** One directory, created unless it is there. */
    method CreateDirectory(path: Path) returns (ok: bool)
      requires Valid() && path != [] && IsDir(fs, Parent(path))
      modifies `fs, `createdDirs
      ensures Valid()
      ensures ok <==> path !in old(fs) || IsDir(old(fs), path)
      ensures fs == if path in old(fs) then old(fs) else old(fs)[path := DirInode]
    {
      if path in fs {
        return fs[path].DirInode?;
      }
      CreatingIsUndoable(before, fs, createdFiles, createdDirs, leaked, path, 0);
      fs := fs[path := DirInode];
      createdDirs := createdDirs + {path};
      return true;
    }

    /** Walks down to `path`, creating the directories that are missing; may stop anywhere. */
    method CreateParents(path: Path, stopAt: Option<nat>) returns (ok: bool)
      requires Valid() && destination <= path
      modifies `fs, `createdDirs
      ensures Valid()
      ensures ok ==> IsDir(fs, path)
      ensures !ok && stopAt.None? ==> exists n :: |destination| < n <= |path| && path[..n] in old(fs) && !IsDir(old(fs), path[..n])
      ensures Extends(old(fs), fs) && forall p :: p in fs && p !in old(fs) ==> p <= path
    {
      var n := |destination|;
      assert path[..n] == destination;
      while n < |path|
        invariant |destination| <= n <= |path| && Valid() && IsDir(fs, path[..n])
        invariant Extends(old(fs), fs)
        invariant forall p :: p in fs && p !in old(fs) ==> fs[p].DirInode? && p <= path
      {
        var current := path[..n + 1];
        assert Parent(current) == path[..n];
        if stopAt == Some(n) {
          return false;
        }
        var made := CreateDirectory(current);
        if !made {
          return false;
        }
        n := n + 1;
      }
      assert path[..n] == path;
      return true;
    }

    /** Creates one file that must not exist yet and keeps track of which file it is. */
    method CreateFile(target: Path, size: nat, luck: Luck) returns (ok: bool)
      requires Valid() && target != [] && IsDir(fs, Parent(target))
      modifies `fs, `freshId, `createdFiles, `files, `leaked
      ensures Valid()
      ensures ok <==> luck.opens && target !in old(fs) && luck.tracking == Tracked
      ensures ok ==> target in createdFiles && fs == old(fs)[target := FileInode(createdFiles[target], [])]
      ensures ok ==> createdFiles == old(createdFiles)[target := createdFiles[target]]
      ensures ok ==> files == old(files)[target := Incoming(size, 0, [])]
      ensures leaked == old(leaked) + if luck.opens && target !in old(fs) && luck.tracking == Leaks then {target} else {}
      ensures !ok ==> createdFiles == old(createdFiles) && files == old(files) && (leaked == old(leaked) ==> fs == old(fs))
      ensures target in old(fs) ==> leaked == old(leaked)
    {
      if !luck.opens || target in fs {
        return false;
      }
      var id := freshId;
      freshId := freshId + 1;
      CreatingIsUndoable(before, fs, createdFiles, createdDirs, leaked, target, id);
      CreatingStillReceives(fs, files, torn, target, id, size);
      fs := fs[target := FileInode(id, [])];
      match luck.tracking
      case Tracked =>
        createdFiles := createdFiles[target := id];
        files := files[target := Incoming(size, 0, [])];
        return true;
      case GuardRemoves =>
        fs := fs - {target};
        assert fs == old(fs);
        return false;
      case Leaks =>
        leaked := leaked + {target};
        return false;
    }

    /** Creates what one entry of the manifest lists; fails only if something hinders it. */
    method PrepareEntry(path: Path, kind: Kind, size: nat, luck: Luck) returns (ok: bool)
      requires Valid() && path != []
      modifies `fs, `freshId, `createdFiles, `createdDirs, `files, `leaked
      ensures Valid()
      ensures ok ==> leaked == old(leaked) && Prepared(fs, createdFiles, files, destination + path, kind, size)
      ensures ok ==> Extends(old(fs), fs) && Extends(old(createdFiles), createdFiles) && Extends(old(files), files)
      ensures ok ==> forall p :: p in fs && p !in old(fs) ==> p <= destination + path
      ensures !ok ==> Hindered(old(fs), destination, path, kind, luck)
      ensures leaked != old(leaked) ==> luck.opens && luck.tracking == Leaks
    {
      var target := destination + path;
      if kind == Directory {
        ok := CreateParents(target, luck.stopAt);
        return;
      }
      assert destination <= Parent(target) <= target;
      ok := CreateParents(Parent(target), luck.stopAt);
      if ok {
        ghost var made := fs;
        assert target in fs <==> target in old(fs);
        assert target in createdFiles ==> target in fs;
        ok := CreateFile(target, size, luck);
        assert ok ==> Extends(made, fs);
      }
    }

    /**
     Creates what the manifest lists, in order of file id, stopping at the first failure: at entry `at`,
     which met the disk as `found`, with the earlier entries prepared and nothing else created.
     */
    method Prepare(entries: seq<(Path, Kind, nat)>, luck: seq<Luck>) returns (ok: bool, ghost at: nat, ghost found: Fs)
      requires Valid() && |luck| == |entries|
      requires forall e :: e in entries ==> e.0 != []
      modifies `fs, `freshId, `createdFiles, `createdDirs, `files, `leaked
      ensures Valid()
      ensures ok ==> leaked == old(leaked)
      ensures ok ==> AllPrepared(fs, createdFiles, files, destination, entries)
      ensures !ok ==> at < |entries| && Hindered(found, destination, entries[at].0, entries[at].1, luck[at])
      ensures !ok ==> Extends(old(fs), found) && OnlyFor(old(fs), found, destination, entries[..at])
      ensures leaked != old(leaked) ==> exists i :: 0 <= i < |luck| && luck[i].opens && luck[i].tracking == Leaks
    {
      var i := 0;
      while i < |entries|
        invariant 0 <= i <= |entries| && Valid() && leaked == old(leaked)
        invariant AllPrepared(fs, createdFiles, files, destination, entries[..i])
        invariant Extends(old(fs), fs) && OnlyFor(old(fs), fs, destination, entries[..i])
      {
        at, found := i, fs;
        ghost var known, open := createdFiles, files;
        var made := PrepareEntry(entries[i].0, entries[i].1, entries[i].2, luck[i]);
        if !made {
          return false, at, found;
        }
        OnlyForMore(old(fs), found, fs, destination, entries, i);
        PreparedMore(found, fs, known, createdFiles, open, files, destination, entries, i);
        i := i + 1;
      }
      assert entries[..i] == entries;
      return true, 0, fs;
    }

    method Append(target: Path, written: Bytes)
      requires Undoable(before, fs, createdFiles, createdDirs, leaked) && IsDir(fs, destination) && target in createdFiles
      modifies `fs
      ensures Undoable(before, fs, createdFiles, createdDirs, leaked) && IsDir(fs, destination)
      ensures fs == old(fs)[target := FileInode(createdFiles[target], old(fs)[target].content + written)]
    {
      AppendingIsUndoable(before, fs, createdFiles, createdDirs, leaked, target, fs[target].content + written);
      fs := fs[target := FileInode(fs[target].id, fs[target].content + written)];
    }

    /** Appends the next bytes of a file; a write that fails may have written some of them (`partial`). */
    method WriteChunk(target: Path, offset: nat, data: Bytes, partial: Option<Bytes>) returns (ok: bool)
      requires Valid() && (partial.Some? ==> partial.value <= data)
      modifies `fs, `files, `torn
      ensures Valid()
      ensures ok <==> Takes(old(files), target, offset, data) && partial.None?
      ensures !Takes(old(files), target, offset, data) ==> fs == old(fs) && files == old(files) && torn == old(torn)
      ensures Takes(old(files), target, offset, data) ==>
        var written := if partial.Some? then partial.value else data;
        && target in old(fs) && old(fs)[target].FileInode?
        && fs == old(fs)[target := FileInode(createdFiles[target], old(fs)[target].content + written)]
        && torn == (if partial.Some? && partial.value != [] then old(torn) + {target} else old(torn))
      ensures files == if ok then Taken(old(files), target, data) else old(files)
    {
      if data == [] || |data| > MAX_CHUNK || target !in files {
        return false;
      }
      var incoming := files[target];
      if offset != incoming.offset || offset + |data| > U64_MAX || offset + |data| > incoming.expected {
        return false;
      }
      if partial.Some? {
        Tear(target, partial.value);
        return false;
      }
      Take(target, offset, data);
      return true;
    }

    method Take(target: Path, offset: nat, data: Bytes)
      requires Valid() && Takes(files, target, offset, data)
      modifies `fs, `files
      ensures Valid() && files == Taken(old(files), target, data)
      ensures fs == old(fs)[target := FileInode(createdFiles[target], old(fs)[target].content + data)]
    {
      TakingStillReceives(fs, files, torn, target, createdFiles[target], offset, data);
      Append(target, data);
      files := files[target := files[target].(offset := offset + |data|, hashed := files[target].hashed + data)];
    }

    method Tear(target: Path, part: Bytes)
      requires Valid() && target in files
      modifies `fs, `torn
      ensures Valid() && torn == (if part != [] then old(torn) + {target} else old(torn))
      ensures fs == old(fs)[target := FileInode(createdFiles[target], old(fs)[target].content + part)]
    {
      FailingStillReceives(fs, files, torn, target, createdFiles[target], part);
      Append(target, part);
      torn := if part != [] then torn + {target} else torn;
    }

    /** A file is done only with all its bytes, synced, and a digest that is theirs. */
    method FinalizeFile<Digest(==)>(target: Path, size: nat, digest: Digest, hash: Bytes -> Digest, synced: bool) returns (ok: bool)
      requires Valid()
      modifies `files
      ensures Valid()
      ensures ok <==>
        && target in old(files) && size == old(files)[target].expected == old(files)[target].offset && synced
        && hash(old(files)[target].hashed) == digest
      ensures ok ==> files == old(files) - {target}
      ensures ok ==> target in fs && fs[target].FileInode? && (|fs[target].content| == size <==> target !in torn)
      ensures ok && target !in torn ==> hash(fs[target].content) == digest
      ensures !ok ==> files == old(files)
    {
      if target !in files {
        return false;
      }
      var incoming := files[target];
      if size != incoming.expected || incoming.offset != incoming.expected || !synced || hash(incoming.hashed) != digest {
        return false;
      }
      files := files - {target};
      return true;
    }

    /** The transfer is finished only when every file is done. */
    method Finish() returns (ok: bool)
      modifies `finished
      ensures ok <==> files == map[]
      ensures finished == (ok || old(finished))
    {
      if files != map[] {
        return false;
      }
      finished := true;
      return true;
    }

    /**
     The destructor. Unfinished, it removes the files that are still the ones it created, then the
     directories it created, deepest first, each only if empty; `stuck` are the paths where that fails.
     Whatever others did meanwhile, nothing else goes; and if nobody touched the disk it is put back,
     exactly unless a file was lost track of or something it created is stuck.
     */
    method Drop(stuck: set<Path>)
      modifies `fs
      ensures old(finished) ==> fs == old(fs)
      ensures fs.Keys <= old(fs).Keys && forall p :: p in fs ==> fs[p] == old(fs)[p]
      ensures forall p :: p in old(fs) && p !in fs ==> p !in stuck && Removable(old(fs), fs, p)
      ensures old(Valid()) && !old(finished) ==> (fs == before <==> leaked == {} && stuck !! createdFiles.Keys + createdDirs)
    {
      if finished {
        return;
      }
      ghost var clean := Valid() && leaked == {} && stuck !! createdFiles.Keys + createdDirs;
      if clean {
        SweepingIsUndoable(before, fs, createdFiles, createdDirs, stuck);
      } else if Valid() {
        SomethingStays(before, fs, createdFiles, createdDirs, leaked, stuck);
      }
      fs := WithoutCreated(fs, createdFiles, stuck);
      RemoveDirectories(stuck);
    }

    /** Removes the directories it created, deepest first, as far as they are empty and not stuck. */
    method RemoveDirectories(stuck: set<Path>)
      modifies `fs
      ensures fs.Keys <= old(fs).Keys && forall p :: p in fs ==> fs[p] == old(fs)[p]
      ensures forall p :: p in old(fs) && p !in fs ==> p !in stuck && p in createdDirs && old(fs)[p].DirInode? && Empty(fs, p)
      ensures Undoable(before, old(fs), map[], createdDirs, {}) && stuck !! createdDirs ==> fs == before
    {
      ghost var clean := Undoable(before, fs, map[], createdDirs, {}) && stuck !! createdDirs;
      var dirs := createdDirs;
      while dirs != {}
        invariant dirs <= createdDirs
        invariant fs.Keys <= old(fs).Keys && forall p :: p in fs ==> fs[p] == old(fs)[p]
        invariant forall p :: p in old(fs) && p !in fs ==> p !in stuck && p in createdDirs && old(fs)[p].DirInode? && Empty(fs, p)
        invariant clean ==> Undoable(before, fs, map[], dirs, {})
        decreases dirs
      {
        HasDeepest(dirs);
        var dir :| dir in dirs && forall e :: e in dirs ==> |e| <= |dir|;
        if clean {
          DeepestIsEmpty(before, fs, dirs, dir);
        }
        dirs := dirs - {dir};
        if dir !in stuck && IsDir(fs, dir) && Empty(fs, dir) {
          fs := fs - {dir};
        }
      }
      if clean {
        assert fs.Keys == before.Keys;
        assert fs == before;
      }
    }

    /** A file it created that is still that file, or a directory it created that has become empty. */
    ghost predicate Removable(was: Fs, now: Fs, p: Path)
      requires p in was
      reads this
    {
      || (p in createdFiles && was[p].FileInode? && was[p].id == createdFiles[p])
      || (p in createdDirs && was[p].DirInode? && Empty(now, p))
    }
  }

  /** A path that was not there before and cannot go. */
  lemma SomethingStays(before: Fs, fs: Fs, files: map<Path, nat>, dirs: set<Path>, leaked: set<Path>, stuck: set<Path>)
    requires Undoable(before, fs, files, dirs, leaked) && (leaked != {} || !(stuck !! files.Keys + dirs))
    ensures exists p :: p in WithoutCreated(fs, files, stuck) && p !in before && (p in stuck || p !in dirs)
  {
    var p :| p in leaked || (p in stuck && p in files.Keys + dirs);
    assert p in WithoutCreated(fs, files, stuck) && p !in before;
  }

  /**
   Whatever part of a file's one chunk a failing write leaves behind, writing the chunk again at the same
   offset and finishing succeeds, the digest agrees, and the file holds the part and then the chunk.
   */
  method TornFileIsAccepted<Digest(==)>(t: IncomingTransfer, target: Path, data: Bytes, part: Bytes, hash: Bytes -> Digest) returns (ok: bool)
    requires t.Valid() && target in t.files && target !in t.torn && t.files[target] == Incoming(|data|, 0, [])
    requires 0 < |data| <= MAX_CHUNK && part != [] && part <= data
    modifies t`fs, t`files, t`torn
    ensures ok && target in t.fs && t.fs[target].FileInode? && t.fs[target].content == part + data != data
  {
    assert Takes(t.files, target, 0, data) && t.fs[target].content == [];
    ok := t.WriteChunk(target, 0, data, Some(part));
    assert t.fs[target].content == part;
    ok := t.WriteChunk(target, 0, data, None);
    assert t.files[target].hashed == data && t.fs[target].content == part + data;
    ok := t.FinalizeFile(target, |data|, hash(data), hash, true);
  }
}
