/** The index of local samples: a cache over a filesystem that keeps changing,
    which must never return a file with the wrong content and must find whatever
    a plain look at the disk would find. */
module LocalIndex {
  import opened Prelude

  type Path = seq<string>
  type Digest = nat
  type Mtime = Option<nat>

  /** A regular file. `digest` is the hash of its present content, whether or not
      this process may read it. */
  datatype Node = Node(size: nat, mtime: Mtime, digest: Digest, readable: bool)

  /** The disk during one resolution. `canonical` resolves links and `..`; `blocked`
      are the paths, of files or of nothing, whose metadata cannot be read for some
      other reason than that nothing is there. */
  datatype Disk = Disk(nodes: map<Path, Node>, canonical: map<Path, Path>, blocked: set<Path>) {
    predicate AllReadable() {
      blocked == {} && forall p :: p in nodes ==> nodes[p].readable
    }

    /** The metadata of a file at `p` can be read. */
    predicate Visible(p: Path) {
      p in nodes && p !in blocked
    }

    predicate Holds(p: Path, digest: Digest) {
      p in nodes && nodes[p].digest == digest
    }
  }

  datatype Request = Request(path: Path, absolute: bool, digest: Digest, size: Option<nat>)

  // ----------------------------------------------------------------- names

  /** `Path::file_name`: none for an empty path or one that ends in `..`. */
  function FileName(p: Path): Option<string> {
    if p == [] || p[|p| - 1] == ".." then None else Some(p[|p| - 1])
  }

  function ParentName(p: Path): string {
    if p == [] then ""
    else match FileName(p[..|p| - 1]) case Some(name) => name case None => ""
  }

  datatype Key = Key(parent: string, basename: string)

  function KeyOf(p: Path): Option<Key> {
    match FileName(p)
    case None => None
    case Some(name) => Some(Key(ParentName(p), name))
  }

  /** The key a request looks up; a path without a name looks up nothing real. */
  function RequestKey(p: Path): Key {
    match FileName(p)
    case None => Key(ParentName(p), "")
    case Some(name) => Key(ParentName(p), name)
  }

  // ------------------------------------------------------- the plain lookup

  function ContainedJoin(disk: Disk, root: Path, req: Request): Option<Path> {
    if req.absolute || root + req.path !in disk.canonical then None
    else
      var target := disk.canonical[root + req.path];
      if root <= target then Some(target) else None
  }

  /** Nothing but the filesystem: the path as given, confirmed by size and hash. */
  function ResolveOnDisk(disk: Disk, root: Path, req: Request): (r: Option<Path>)
    ensures r.Some? ==> disk.Holds(r.value, req.digest)
    ensures r.Some? ==> root <= r.value
    ensures r.Some? <==>
      && !req.absolute && root + req.path in disk.canonical
      && var p := disk.canonical[root + req.path];
      && root <= p && disk.Holds(p, req.digest)
      && p !in disk.blocked && disk.nodes[p].readable
      && (req.size.Some? ==> disk.nodes[p].size == req.size.value)
  {
    var candidate := ContainedJoin(disk, root, req);
    if candidate.Some? && disk.Visible(candidate.value)
       && (req.size.Some? ==> disk.nodes[candidate.value].size == req.size.value)
       && disk.nodes[candidate.value].readable
       && disk.nodes[candidate.value].digest == req.digest
    then candidate else None
  }

  // ------------------------------------------------------------- the index

  datatype IndexedFile = IndexedFile(path: Path, size: nat)

  datatype Cached = Cached(size: nat, mtime: Mtime, digest: Digest)

  datatype Matching = Yes | No | Broken

  datatype Outcome = Found(path: Path) | NotFound | Failed

  type Names = map<Key, seq<nat>>

  /** Every file is listed under its own key and nowhere else. */
  ghost predicate NamesMatch(files: seq<IndexedFile>, names: Names, n: nat)
    requires n <= |files|
  {
    && (forall key :: key in names ==> forall id :: id in names[key] ==>
          id < n && KeyOf(files[id].path) == Some(key))
    && (forall id :: 0 <= id < n && KeyOf(files[id].path).Some? ==>
          KeyOf(files[id].path).value in names && id in names[KeyOf(files[id].path).value])
  }

  method IndexNames(files: seq<IndexedFile>) returns (names: Names)
    ensures NamesMatch(files, names, |files|)
  {
    names := map[];
    for id := 0 to |files|
      invariant NamesMatch(files, names, id)
    {
      var key := KeyOf(files[id].path);
      if key.Some? {
        var entry := if key.value in names then names[key.value] else [];
        names := names[key.value := entry + [id]];
      }
    }
  }

  class LocalFileIndex {
    const root: Path
    const files: seq<IndexedFile>
    const names: Names
    var verified: map<Digest, nat>
    var cache: seq<Option<Cached>>

    /** The assumption everything rests on: a path that keeps its size and
        modification time keeps its content. `content` names that content. */
    ghost const content: (Path, nat, Mtime) -> Digest

    /** The walk that feeds the index meets every path once. */
    constructor (root: Path, files: seq<IndexedFile>, ghost content: (Path, nat, Mtime) -> Digest)
      requires forall i, j :: 0 <= i < j < |files| ==> files[i].path != files[j].path
      ensures Valid() && this.root == root && this.files == files && this.content == content
      ensures verified == map[] && forall id :: 0 <= id < |files| ==> cache[id] == None
    {
      var index := IndexNames(files);
      this.root := root;
      this.files := files;
      this.names := index;
      this.content := content;
      verified := map[];
      cache := seq(|files|, _ => None);
    }

    ghost predicate Valid()
      reads this
    {
      && NamesMatch(files, names, |files|)
      && (forall i, j :: 0 <= i < j < |files| ==> files[i].path != files[j].path)
      && |cache| == |files|
      && (forall id :: 0 <= id < |files| && cache[id].Some? ==>
            cache[id].value.digest
              == content(files[id].path, cache[id].value.size, cache[id].value.mtime))
    }

    /** A disk that honours the assumption. */
    ghost predicate Honest(disk: Disk) {
      forall p :: p in disk.nodes ==>
        disk.nodes[p].digest == content(p, disk.nodes[p].size, disk.nodes[p].mtime)
    }

    /** The hash on record for `id` is for the file's present size and time. */
    ghost predicate UpToDate(id: nat, node: Node)
      reads this
      requires id < |cache|
    {
      cache[id].Some? && cache[id].value.size == node.size && cache[id].value.mtime == node.mtime
    }

    /** Answering for `id` would need the metadata of a blocked path, or the content
        of a file that cannot be read and has no hash on record. */
    ghost predicate Unanswerable(disk: Disk, id: nat)
      reads this
    {
      && id < |files| && id < |cache|
      && (files[id].path in disk.blocked
          || (files[id].path in disk.nodes && !disk.nodes[files[id].path].readable
              && !UpToDate(id, disk.nodes[files[id].path])))
    }

    /** Does indexed file `id` hold `expected` now? A slot of the hash cache is
        written once and used only while size and time agree with it. */
    method FileMatches(disk: Disk, id: nat, expected: Digest) returns (r: Matching)
      requires Valid() && Honest(disk) && id < |files|
      modifies this`cache
      ensures Valid()
      ensures r.Yes? ==> disk.Holds(files[id].path, expected)
      ensures r.No? ==> !disk.Holds(files[id].path, expected)
      ensures r.Broken? <==> old(Unanswerable(disk, id))
      ensures |cache| == |old(cache)|
      ensures forall k :: 0 <= k < |cache| && (k != id || old(cache)[k].Some?) ==>
        cache[k] == old(cache)[k]
    {
      var path := files[id].path;
      if path in disk.blocked {
        return Broken;
      }
      if path !in disk.nodes {
        return No;
      }
      var node := disk.nodes[path];
      if cache[id].Some? && cache[id].value.size == node.size && cache[id].value.mtime == node.mtime {
        return if cache[id].value.digest == expected then Yes else No;
      }
      if !node.readable {
        return Broken;
      }
      if cache[id].None? {
        cache := cache[id := Some(Cached(node.size, node.mtime, node.digest))];
      }
      r := if node.digest == expected then Yes else No;
    }

    /** The indexed file at exactly this path. */
    method FileIdForPath(path: Path) returns (r: Option<nat>)
      requires Valid()
      ensures r.Some? ==>
        r.value < |files| && files[r.value].path == path && KeyOf(path).Some?
      ensures r.None? ==> forall id :: 0 <= id < |files| && KeyOf(path).Some? ==> files[id].path != path
    {
      var key := KeyOf(path);
      if key.None? || key.value !in names {
        return None;
      }
      var ids := names[key.value];
      for i := 0 to |ids|
        invariant forall k :: 0 <= k < i ==> ids[k] < |files| && files[ids[k]].path != path
      {
        assert ids[i] in names[key.value];
        if files[ids[i]].path == path {
          return Some(ids[i]);
        }
      }
      assert forall id :: 0 <= id < |files| && files[id].path == path ==> id in ids;
      r := None;
    }

    /** An indexed file whose name, size and present content answer the request. */
    ghost predicate Answers(disk: Disk, id: nat, req: Request) {
      && id < |files|
      && KeyOf(files[id].path) == Some(RequestKey(req.path))
      && (req.size.Some? ==> files[id].size == req.size.value)
      && disk.Holds(files[id].path, req.digest)
    }

    /** Worth hashing: the file at exactly the requested path, and those of the
        requested name and size. */
    ghost predicate Candidate(disk: Disk, id: nat, req: Request) {
      id < |files| && KeyOf(files[id].path).Some? &&
      ((!req.absolute && disk.Visible(root + req.path) && files[id].path == root + req.path)
       || (KeyOf(files[id].path) == Some(RequestKey(req.path))
           && (req.size.Some? ==> files[id].size == req.size.value)))
    }

    ghost predicate NoneHolds(disk: Disk, b: nat, req: Request) {
      forall k: nat :: k < b && Candidate(disk, k, req) ==> !disk.Holds(files[k].path, req.digest)
    }

    /** The file on record for a digest is unanswerable. */
    ghost predicate RecordUnanswerable(disk: Disk, digest: Digest)
      reads this
    {
      digest in verified && Unanswerable(disk, verified[digest])
    }

    /** The file on record for a digest still holds it. */
    ghost predicate RecordHolds(disk: Disk, digest: Digest)
      reads this
    {
      digest in verified && verified[digest] < |files| && disk.Holds(files[verified[digest]].path, digest)
    }

    method Candidates(disk: Disk, req: Request) returns (candidates: set<nat>)
      requires Valid()
      ensures forall id: nat :: id in candidates <==> Candidate(disk, id, req)
    {
      candidates := {};
      if !req.absolute && disk.Visible(root + req.path) {
        var direct := FileIdForPath(root + req.path);
        if direct.Some? {
          candidates := {direct.value};
        }
      }
      var key := RequestKey(req.path);
      if key in names {
        candidates := candidates + set id | id in names[key]
          && (req.size.Some? ==> files[id].size == req.size.value);
      }
    }

    /** Where to find the requested content.

        A path that is returned holds it. Nothing is reported missing that a look
        at the disk, or any indexed file of that name and size, could have
        answered. The resolution fails just when the file on record for the digest
        cannot be answered for, or does not settle the matter and some candidate
        that cannot be answered for comes before any that matches. */
    method Resolve(disk: Disk, req: Request) returns (r: Outcome)
      requires Valid() && Honest(disk)
      modifies this`cache, this`verified
      ensures Valid()
      ensures r.Found? ==> disk.Holds(r.path, req.digest)
      ensures r.NotFound? ==>
        ResolveOnDisk(disk, root, req).None? && forall id: nat :: !Answers(disk, id, req)
      ensures r.Failed? ==> !disk.AllReadable()
      ensures r.Failed? <==>
        || old(RecordUnanswerable(disk, req.digest))
        || (!old(RecordHolds(disk, req.digest))
            && exists b: nat :: Candidate(disk, b, req) && old(Unanswerable(disk, b))
                 && NoneHolds(disk, b, req))
    {
      if req.digest in verified {
        var id := verified[req.digest];
        if id < |files| {
          var matching := FileMatches(disk, id, req.digest);
          if matching.Broken? {
            return Failed;
          }
          if matching.Yes? {
            return Found(files[id].path);
          }
        }
        verified := verified - {req.digest};
      }
      label Searching:
      var candidates := Candidates(disk, req);
      // Visiting ids in order is sorting the candidates and dropping duplicates.
      for id := 0 to |files|
        invariant Valid()
        invariant forall k :: id <= k < |files| ==> cache[k] == old@Searching(cache)[k]
        invariant forall k :: 0 <= k < id && Candidate(disk, k, req) ==>
          !disk.Holds(files[k].path, req.digest) && !old@Searching(Unanswerable(disk, k))
      {
        if id in candidates {
          var matching := FileMatches(disk, id, req.digest);
          if matching.Broken? {
            return Failed;
          }
          if matching.Yes? {
            assert forall b: nat :: b > id ==> !NoneHolds(disk, b, req);
            verified := verified[req.digest := id];
            return Found(files[id].path);
          }
        }
      }
      assert forall id: nat :: Answers(disk, id, req) ==> Candidate(disk, id, req);
      var plain := ResolveOnDisk(disk, root, req);
      r := if plain.Some? then Found(plain.value) else NotFound;
    }

    /** A whole run: any requests against any succession of honest disks. Every
        answer is right for the disk of its moment, whatever the caches hold. */
    method ResolveAll(disks: seq<Disk>, reqs: seq<Request>) returns (answers: seq<Outcome>)
      requires Valid() && |disks| == |reqs|
      requires forall k :: 0 <= k < |disks| ==> Honest(disks[k])
      modifies this`cache, this`verified
      ensures |answers| == |reqs|
      ensures forall k :: 0 <= k < |answers| && answers[k].Found? ==>
        disks[k].Holds(answers[k].path, reqs[k].digest)
      ensures forall k :: 0 <= k < |answers| && disks[k].AllReadable() ==>
        (answers[k].Found? <== ResolveOnDisk(disks[k], root, reqs[k]).Some?
                               || exists id: nat :: Answers(disks[k], id, reqs[k]))
    {
      answers := [];
      for k := 0 to |reqs|
        invariant Valid() && |answers| == k
        invariant forall i :: 0 <= i < k && answers[i].Found? ==>
          disks[i].Holds(answers[i].path, reqs[i].digest)
        invariant forall i :: 0 <= i < k && disks[i].AllReadable() ==>
          (answers[i].Found? <== ResolveOnDisk(disks[i], root, reqs[i]).Some?
                                 || exists id: nat :: Answers(disks[i], id, reqs[i]))
      {
        var answer := Resolve(disks[k], reqs[k]);
        answers := answers + [answer];
      }
    }
  }

  /** A fresh index fails where the plain lookup answers: an unreadable file of the
      requested name comes before the file that is right where it should be. */
  method UnreadableNamesakeHidesTheSample() returns (r: Outcome, plain: Option<Path>)
    ensures r == Failed && plain == Some(["data", "b", "x"])
  {
    var namesake, sample := ["data", "a", "b", "x"], ["data", "b", "x"];
    var disk := Disk(
      map[namesake := Node(1, None, 0, false), sample := Node(1, None, 0, true)],
      map[sample := sample], {});
    var req := Request(["b", "x"], false, 0, Some(1));
    var index := new LocalFileIndex(["data"], [IndexedFile(namesake, 1), IndexedFile(sample, 1)],
      (path, size, mtime) => 0);
    assert index.root + req.path == sample;
    assert namesake[..3][..2] == ["data", "a"] && FileName(namesake[..3]) == Some("b");
    assert RequestKey(req.path) == Key("b", "x") by {
      assert req.path[..1] == ["b"];
    }
    assert KeyOf(namesake) == Some(Key("b", "x"));
    plain := ResolveOnDisk(disk, index.root, req);
    assert index.Candidate(disk, 0, req) && index.Unanswerable(disk, 0);
    r := index.Resolve(disk, req);
  }
}
