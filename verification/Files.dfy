/**
 File trees, and copying a directory from one file system into another with a worklist of directories.

 A file system maps paths to folders and files. Listing order is left open.
 */
module Files {
  import opened Wrappers

  type Path = seq<string>

  datatype Node = Folder | File(bytes: seq<nat>)

  type FileSystem = map<Path, Node>

  predicate Under(p: Path, base: Path) {
    |base| <= |p| && p[..|base|] == base
  }

  function Parent(r: Path): Path
    requires r != []
  {
    r[..|r| - 1]
  }

  function Last(r: Path): string
    requires r != []
  {
    r[|r| - 1]
  }

  /** Everything but the root lies in a folder. */
  ghost predicate WellFormed(fs: FileSystem) {
    forall p {:trigger Parent(p)} | p in fs && p != [] :: Parent(p) in fs && fs[Parent(p)].Folder?
  }

  /** The tree at a directory, with paths relative to it. */
  ghost function Tree(fs: FileSystem, base: Path): FileSystem {
    map r | r in (set p | p in fs && Under(p, base) :: p[|base|..]) :: At(fs, base, r)
  }

  ghost function At(fs: FileSystem, base: Path, r: Path): Node {
    if base + r in fs then fs[base + r] else Folder
  }

  lemma TreeAt(fs: FileSystem, base: Path, r: Path)
    ensures r in Tree(fs, base) <==> base + r in fs
    ensures r in Tree(fs, base) ==> Tree(fs, base)[r] == fs[base + r]
  {
    var rels := set p | p in fs && Under(p, base) :: p[|base|..];
    if r in rels {
      var p :| p in fs && Under(p, base) && p[|base|..] == r;
      assert base + r == p;
    }
    if base + r in fs {
      assert Under(base + r, base) && (base + r)[|base|..] == r;
    }
  }

  /** Writing at one path below a directory changes that one path of its tree. */
  lemma TreePut(fs: FileSystem, base: Path, r: Path, node: Node)
    ensures Tree(fs[base + r := node], base) == Tree(fs, base)[r := node]
  {
    var after := Tree(fs[base + r := node], base);
    forall q ensures q in after <==> q in Tree(fs, base) || q == r
             ensures q in after ==> after[q] == if q == r then node else Tree(fs, base)[q]
    {
      TreeAt(fs, base, q);
      TreeAt(fs[base + r := node], base, q);
      if base + q == base + r {
        assert q == (base + q)[|base|..] && r == (base + r)[|base|..];
      }
    }
  }

  /** Writing at a path that is not below a directory leaves its tree alone. */
  lemma TreeElsewhere(fs: FileSystem, base: Path, p: Path, node: Node)
    requires !Under(p, base)
    ensures Tree(fs[p := node], base) == Tree(fs, base)
  {
    forall q ensures q in Tree(fs[p := node], base) <==> q in Tree(fs, base)
             ensures q in Tree(fs, base) ==> Tree(fs[p := node], base)[q] == Tree(fs, base)[q]
    {
      TreeAt(fs, base, q);
      TreeAt(fs[p := node], base, q);
      assert Under(base + q, base);
    }
  }

  /** The names in a directory. */
  function Names(fs: FileSystem, dir: Path): set<string> {
    set p | p in fs && |p| == |dir| + 1 && p[..|dir|] == dir :: p[|dir|]
  }

  lemma NamesAt(fs: FileSystem, dir: Path, name: string)
    ensures name in Names(fs, dir) <==> dir + [name] in fs
  {
    if name in Names(fs, dir) {
      var p :| p in fs && |p| == |dir| + 1 && p[..|dir|] == dir && p[|dir|] == name;
      assert p == dir + [name];
    }
    if dir + [name] in fs {
      assert (dir + [name])[..|dir|] == dir && (dir + [name])[|dir|] == name;
    }
  }

  lemma NamesInTree(fs: FileSystem, base: Path, r: Path)
    ensures Names(fs, base + r) == Names(Tree(fs, base), r)
  {
    forall name ensures name in Names(fs, base + r) <==> name in Names(Tree(fs, base), r) {
      NamesAt(fs, base + r, name);
      NamesAt(Tree(fs, base), r, name);
      TreeAt(fs, base, r + [name]);
      assert base + r + [name] == base + (r + [name]);
    }
  }

  // ---- The worklist ----

  /**
   Between two directories of the worklist: the copy agrees with the source, every folder in it is expanded or waiting,
   and everything in an expanded folder is in it.
   */
  ghost predicate Progress(source: FileSystem, copy: FileSystem, queue: seq<Path>, expanded: set<Path>) {
    && Agrees(source, copy) && Expanded(source, expanded)
    && (forall r | r in source && r != [] && Parent(r) in expanded :: r in copy)
    && (forall r | r in copy && copy[r].Folder? :: r in expanded || r in queue)
    && (forall i | 0 <= i < |queue| :: Waiting(source, queue[i], expanded))
    && (forall i, j | 0 <= i < j < |queue| :: queue[i] != queue[j])
  }

  ghost predicate Expanded(source: FileSystem, expanded: set<Path>) {
    forall r | r in expanded :: r in source && source[r].Folder? && (r == [] || Parent(r) in expanded)
  }

  ghost predicate Agrees(source: FileSystem, copy: FileSystem) {
    [] in copy && forall r | r in copy :: r in source && source[r] == copy[r]
  }

  ghost predicate Waiting(source: FileSystem, r: Path, expanded: set<Path>) {
    && r in source && source[r].Folder?
    && r !in expanded
    && (r == [] || Parent(r) in expanded)
  }

  /** While `next` is being expanded, with `names` of it left to copy. */
  ghost predicate Expanding(source: FileSystem, copy: FileSystem, queue: seq<Path>, expanded: set<Path>,
                            next: Path, names: set<string>) {
    && Agrees(source, copy) && Expanded(source, expanded)
    && (forall r | r in source && r != [] && Parent(r) in expanded :: r in copy)
    && (forall r | r in source && r != [] && Parent(r) == next && Last(r) !in names :: r in copy)
    && (forall r | r in copy && copy[r].Folder? :: r in expanded || r in queue || r == next)
    && Waiting(source, next, expanded)
    && (forall name | name in names :: next + [name] in source)
    && (forall i | 0 <= i < |queue| :: Pushed(source, queue[i], expanded, next, names))
    && (forall i, j | 0 <= i < j < |queue| :: queue[i] != queue[j])
  }

  ghost predicate Pushed(source: FileSystem, r: Path, expanded: set<Path>, next: Path, names: set<string>) {
    && r in source && source[r].Folder?
    && r !in expanded && r != next
    && (r == [] || Parent(r) in expanded || (Parent(r) == next && Last(r) !in names))
  }

  lemma ExpandStart(source: FileSystem, copy: FileSystem, queue: seq<Path>, expanded: set<Path>)
    requires Progress(source, copy, queue, expanded) && queue != []
    ensures var next := queue[|queue| - 1];
            next in source && Expanding(source, copy, queue[..|queue| - 1], expanded, next, Names(source, next))
  {
    var next, rest := queue[|queue| - 1], queue[..|queue| - 1];
    assert Waiting(source, next, expanded);
    forall name ensures name in Names(source, next) <==> next + [name] in source {
      NamesAt(source, next, name);
    }
    forall r | r in source && r != [] && Parent(r) == next ensures Last(r) in Names(source, next) {
      assert r == next + [Last(r)];
    }
    forall i | 0 <= i < |rest| ensures Pushed(source, rest[i], expanded, next, Names(source, next)) {
      assert Waiting(source, queue[i], expanded) && queue[i] != next;
    }
  }

  /** One name: its node is copied, and a folder joins the queue. */
  lemma ExpandName(source: FileSystem, copy: FileSystem, queue: seq<Path>, expanded: set<Path>, next: Path,
                   names: set<string>, name: string)
    requires Expanding(source, copy, queue, expanded, next, names) && name in names
    ensures var r := next + [name];
            var node := source[r];
            Expanding(source, copy[r := node], if node.Folder? then queue + [r] else queue, expanded, next,
                      names - {name})
  {
    var r := next + [name];
    var node := source[r];
    var after := if node.Folder? then queue + [r] else queue;
    assert Parent(r) == next && Last(r) == name;
    forall q | q in source && q != [] && Parent(q) == next && Last(q) !in names - {name} ensures q in copy[r := node] {
      if Last(q) == name { assert q == Parent(q) + [Last(q)] == r; }
    }
    forall i | 0 <= i < |queue| ensures queue[i] != r && Pushed(source, queue[i], expanded, next, names - {name}) {
      assert Pushed(source, queue[i], expanded, next, names);
    }
    if node.Folder? {
      assert r !in expanded;
      assert Pushed(source, r, expanded, next, names - {name});
    }
  }

  lemma ExpandEnd(source: FileSystem, copy: FileSystem, queue: seq<Path>, expanded: set<Path>, next: Path)
    requires Expanding(source, copy, queue, expanded, next, {})
    ensures Progress(source, copy, queue, expanded + {next})
  {
    forall i | 0 <= i < |queue| ensures Waiting(source, queue[i], expanded + {next}) {
      assert Pushed(source, queue[i], expanded, next, {});
    }
  }

  /** With nothing left to expand the copy is the whole tree. */
  lemma ProgressEnds(source: FileSystem, copy: FileSystem, expanded: set<Path>)
    requires WellFormed(source) && Progress(source, copy, [], expanded)
    ensures copy == source
  {
    forall r | r in source ensures r in copy {
      Reached(source, copy, expanded, r);
    }
  }

  lemma {:induction false} Reached(source: FileSystem, copy: FileSystem, expanded: set<Path>, r: Path)
    requires WellFormed(source) && Progress(source, copy, [], expanded) && r in source
    ensures r in copy
    decreases |r|
  {
    if r != [] {
      Reached(source, copy, expanded, Parent(r));
    }
  }

  // ---- Creating folders ----

  function Prefixes(path: Path): (s: set<Path>)
    ensures forall p :: p in s <==> Under(path, p)
  {
    if path == [] then {[]}
    else
      var s := Prefixes(path[..|path| - 1]) + {path};
      assert forall p :: p in s <==> Under(path, p) by {
        forall p ensures p in s <==> Under(path, p) {
          if |p| < |path| { assert path[..|p|] == path[..|path| - 1][..|p|]; }
          if |p| == |path| { assert path[..|p|] == path; }
        }
      }
      s
  }

  predicate CanMkdir(fs: FileSystem, path: Path) {
    forall p | p in Prefixes(path) && p in fs :: fs[p].Folder?
  }

  function MkdirAll(fs: FileSystem, path: Path): FileSystem {
    map p | p in fs.Keys + Prefixes(path) :: if p in fs then fs[p] else Folder
  }

  /** Creating a folder leaves alone every tree it is not in and that is not in it. */
  lemma MkdirElsewhere(fs: FileSystem, path: Path, base: Path)
    requires !Under(path, base)
    ensures Tree(MkdirAll(fs, path), base) == Tree(fs, base)
  {
    forall q ensures q in Tree(MkdirAll(fs, path), base) <==> q in Tree(fs, base)
             ensures q in Tree(fs, base) ==> Tree(MkdirAll(fs, path), base)[q] == Tree(fs, base)[q]
    {
      TreeAt(fs, base, q);
      TreeAt(MkdirAll(fs, path), base, q);
      if |base + q| <= |path| { assert path[..|base|] == path[..|base + q|][..|base|]; }
    }
  }

  // ---- Copying ----

  /** Neither directory is inside the other. */
  ghost predicate Apart(a: Path, b: Path) {
    !Under(a, b) && !Under(b, a)
  }

  /** Every directory apart from `dir` has the same tree in both file systems. */
  ghost predicate Untouched(before: FileSystem, after: FileSystem, dir: Path) {
    forall base | Apart(base, dir) :: Tree(after, base) == Tree(before, base)
  }

  lemma UnderEither(dir: Path, r: Path, base: Path)
    ensures Under(dir + r, base) ==> Under(dir, base) || Under(base, dir)
  {
    if |base| <= |dir| {
      assert dir[..|base|] == (dir + r)[..|base|];
    } else if |base| <= |dir + r| {
      assert (dir + r)[..|base|][..|dir|] == dir;
    }
  }

  lemma UntouchedPut(before: FileSystem, after: FileSystem, dir: Path, r: Path, node: Node)
    requires Untouched(before, after, dir)
    ensures Untouched(before, after[dir + r := node], dir)
  {
    forall base | Apart(base, dir) ensures Tree(after[dir + r := node], base) == Tree(before, base) {
      UnderEither(dir, r, base);
      TreeElsewhere(after, base, dir + r, node);
    }
  }

  lemma UntouchedMkdir(fs: FileSystem, dir: Path)
    ensures Untouched(fs, MkdirAll(fs, dir), dir)
  {
    forall base | Apart(base, dir) ensures Tree(MkdirAll(fs, dir), base) == Tree(fs, base) {
      MkdirElsewhere(fs, dir, base);
    }
  }

  lemma TreeWellFormed(fs: FileSystem, base: Path)
    requires WellFormed(fs)
    ensures WellFormed(Tree(fs, base))
  {
    forall r | r in Tree(fs, base) && r != []
      ensures Parent(r) in Tree(fs, base) && Tree(fs, base)[Parent(r)].Folder?
    {
      TreeAt(fs, base, r);
      TreeAt(fs, base, Parent(r));
      assert Parent(base + r) == base + Parent(r);
    }
  }

  /** A directory that does not exist, or exists and is empty. */
  ghost predicate Empty(fs: FileSystem, dir: Path) {
    forall r | r in Tree(fs, dir) :: r == []
  }

  lemma MkdirTree(fs: FileSystem, dir: Path)
    requires CanMkdir(fs, dir)
    ensures Tree(MkdirAll(fs, dir), dir) == Tree(fs, dir)[[] := Folder]
  {
    var after := MkdirAll(fs, dir);
    forall r ensures r in Tree(after, dir) <==> r in Tree(fs, dir) || r == []
             ensures r in Tree(after, dir) ==> Tree(after, dir)[r] == if r == [] then Folder else Tree(fs, dir)[r]
    {
      TreeAt(fs, dir, r);
      TreeAt(after, dir, r);
      assert Under(dir, dir + []) && dir + [] == dir;
      if r != [] { assert !Under(dir, dir + r); }
    }
  }

  ghost function Folders(fs: FileSystem): set<Path> {
    set p | p in fs && fs[p].Folder?
  }

  /** No path is a folder in one tree and a file in the other. */
  ghost predicate Compatible(had: FileSystem, tree: FileSystem) {
    forall r | r in had && r in tree :: had[r].Folder? <==> tree[r].Folder?
  }

  // ---- Traces of writes ----

  /** One write below `dst`, of a node of the tree to its own place. */
  ghost predicate OneWrite(a: FileSystem, b: FileSystem, dst: Path, tree: FileSystem) {
    exists r | r in tree :: b == a[dst + r := tree[r]]
  }

  ghost predicate WriteAt(trace: seq<FileSystem>, k: nat, dst: Path, tree: FileSystem)
    requires k + 1 < |trace|
  {
    OneWrite(trace[k], trace[k + 1], dst, tree)
  }

  /** The file system after creating `dst` and after each single write since. */
  ghost predicate Writes(trace: seq<FileSystem>, before: FileSystem, dst: Path, tree: FileSystem) {
    && |trace| > 0
    && trace[0] == MkdirAll(before, dst)
    && forall k: nat | k + 1 < |trace| :: WriteAt(trace, k, dst, tree)
  }

  lemma WritesNext(trace: seq<FileSystem>, before: FileSystem, dst: Path, tree: FileSystem, r: Path)
    requires Writes(trace, before, dst, tree) && r in tree
    ensures Writes(trace + [trace[|trace| - 1][dst + r := tree[r]]], before, dst, tree)
  {
    var last := trace[|trace| - 1];
    var next := last[dst + r := tree[r]];
    var after := trace + [next];
    assert OneWrite(last, next, dst, tree);
    forall k: nat | k + 1 < |after| ensures WriteAt(after, k, dst, tree) {
      if k + 1 < |trace| { assert WriteAt(trace, k, dst, tree); }
    }
  }

  /** Whenever the writes stop, every directory apart from `dst` is as it was. */
  lemma {:induction false} WritesUntouched(trace: seq<FileSystem>, before: FileSystem, dst: Path, tree: FileSystem,
                                           i: nat)
    requires Writes(trace, before, dst, tree) && i < |trace|
    ensures Untouched(before, trace[i], dst)
  {
    if i == 0 {
      UntouchedMkdir(before, dst);
    } else {
      WritesUntouched(trace, before, dst, tree, i - 1);
      assert WriteAt(trace, i - 1, dst, tree);
      var r :| r in tree && trace[i] == trace[i - 1][dst + r := tree[r]];
      UntouchedPut(before, trace[i - 1], dst, r, tree[r]);
    }
  }

  // ---- Copying ----

  /** What the copy has reached: `part` of the tree is in place over what the directory held before. */
  ghost predicate Placed(before: FileSystem, held: FileSystem, dest: FileSystem, dst: Path, part: FileSystem,
                         trace: seq<FileSystem>, tree: FileSystem) {
    && Tree(dest, dst) == held + part
    && Compatible(held, part)
    && Writes(trace, before, dst, tree) && trace[|trace| - 1] == dest
  }

  lemma PutOver(held: FileSystem, part: FileSystem, r: Path, node: Node)
    ensures (held + part)[r := node] == held + part[r := node]
  {
  }

  lemma PlaceNode(before: FileSystem, held: FileSystem, dest: FileSystem, dst: Path, part: FileSystem,
                  trace: seq<FileSystem>, tree: FileSystem, r: Path)
    requires Placed(before, held, dest, dst, part, trace, tree) && r in tree
    requires dst + r in dest ==> (dest[dst + r].Folder? <==> tree[r].Folder?)
    ensures var after := dest[dst + r := tree[r]];
            Placed(before, held, after, dst, part[r := tree[r]], trace + [after], tree)
  {
    TreePut(dest, dst, r, tree[r]);
    TreeAt(dest, dst, r);
    WritesNext(trace, before, dst, tree, r);
    PutOver(held, part, r, tree[r]);
  }

  /** A folder in the place of a file, or the other way round, was there before. */
  lemma Conflict(before: FileSystem, held: FileSystem, dest: FileSystem, dst: Path, part: FileSystem,
                 trace: seq<FileSystem>, tree: FileSystem, r: Path)
    requires Placed(before, held, dest, dst, part, trace, tree) && Agrees(tree, part) && r in tree
    requires dst + r in dest && dest[dst + r].Folder? != tree[r].Folder?
    ensures !Compatible(held, tree)
  {
    TreeAt(dest, dst, r);
    assert r in held && held[r] == dest[dst + r];
  }

  /** The inner loop: one directory of the source, entry by entry. */
  method CopyEntries(source: FileSystem, src: Path, destination: FileSystem, dst: Path, next: Path, waiting: seq<Path>,
                     ghost before: FileSystem, ghost held: FileSystem, ghost tree: FileSystem,
                     ghost expanded: set<Path>, ghost done: FileSystem, ghost earlier: seq<FileSystem>)
    returns (ok: bool, dest: FileSystem, queue: seq<Path>, ghost part: FileSystem, ghost trace: seq<FileSystem>)
    requires tree == Tree(source, src)
    requires Expanding(tree, done, waiting, expanded, next, Names(source, src + next))
    requires Placed(before, held, destination, dst, done, earlier, tree)
    ensures Placed(before, held, dest, dst, part, trace, tree)
    ensures if ok then Expanding(tree, part, queue, expanded, next, {}) else !Compatible(held, tree)
  {
    dest, queue, part, trace := destination, waiting, done, earlier;
    var names := Names(source, src + next);
    while names != {}
      invariant Expanding(tree, part, queue, expanded, next, names)
      invariant Placed(before, held, dest, dst, part, trace, tree)
    {
      var name :| name in names;
      var r := next + [name];
      TreeAt(source, src, r);
      var node := source[src + r];
      if dst + r in dest && dest[dst + r].Folder? != node.Folder? {
        Conflict(before, held, dest, dst, part, trace, tree, r);
        return false, dest, queue, part, trace;
      }
      ExpandName(tree, part, queue, expanded, next, names, name);
      PlaceNode(before, held, dest, dst, part, trace, tree, r);
      dest, queue := dest[dst + r := node], if node.Folder? then queue + [r] else queue;
      part, trace := part[r := node], trace + [dest];
      names := names - {name};
    }
    ok := true;
  }

  lemma CopyStarts(source: FileSystem, src: Path, before: FileSystem, dst: Path)
    requires CanMkdir(before, dst) && src in source && source[src].Folder?
    ensures Progress(Tree(source, src), map[[] := Folder], [[]], {})
    ensures var dest := MkdirAll(before, dst);
            Placed(before, Tree(before, dst), dest, dst, map[[] := Folder], [dest], Tree(source, src))
  {
    MkdirTree(before, dst);
    TreeAt(source, src, []);
    TreeAt(before, dst, []);
    assert src + [] == src && dst + [] == dst && Under(dst, dst);
    assert Waiting(Tree(source, src), [], {});
    assert Tree(before, dst)[[] := Folder] == Tree(before, dst) + map[[] := Folder];
  }

  lemma CopyOpens(source: FileSystem, src: Path, tree: FileSystem, part: FileSystem, queue: seq<Path>,
                  expanded: set<Path>)
    requires tree == Tree(source, src) && Progress(tree, part, queue, expanded) && queue != []
    ensures var next := queue[|queue| - 1];
            && Expanding(tree, part, queue[..|queue| - 1], expanded, next, Names(source, src + next))
            && next in Folders(tree) - expanded
  {
    ExpandStart(tree, part, queue, expanded);
    NamesInTree(source, src, queue[|queue| - 1]);
  }

  /** What the destination holds after the copy, if nothing was in the way. */
  ghost predicate Overwritten(dest: FileSystem, dst: Path, held: FileSystem, tree: FileSystem) {
    Tree(dest, dst) == held + tree
  }

  lemma CopyEnds(source: FileSystem, src: Path, before: FileSystem, held: FileSystem, dest: FileSystem, dst: Path,
                 part: FileSystem, trace: seq<FileSystem>, tree: FileSystem, expanded: set<Path>)
    requires WellFormed(source) && tree == Tree(source, src) && Progress(tree, part, [], expanded)
    requires Placed(before, held, dest, dst, part, trace, tree)
    ensures Compatible(held, tree) && Overwritten(dest, dst, held, tree)
  {
    TreeWellFormed(source, src);
    ProgressEnds(tree, part, expanded);
  }

  /** The outer loop: directories from a queue, the last one first. */
  method CopyFolders(source: FileSystem, src: Path, made: FileSystem, dst: Path, ghost before: FileSystem,
                     ghost held: FileSystem, ghost tree: FileSystem)
    returns (ok: bool, dest: FileSystem, ghost part: FileSystem, ghost expanded: set<Path>,
             ghost trace: seq<FileSystem>)
    requires CanMkdir(before, dst) && src in source && source[src].Folder?
    requires made == MkdirAll(before, dst) && held == Tree(before, dst) && tree == Tree(source, src)
    ensures Placed(before, held, dest, dst, part, trace, tree)
    ensures if ok then Progress(tree, part, [], expanded) else !Compatible(held, tree)
  {
    CopyStarts(source, src, before, dst);
    dest, trace := made, [made];
    var queue: seq<Path> := [[]];
    part, expanded := map[[] := Folder], {};
    while queue != []
      invariant Progress(tree, part, queue, expanded)
      invariant Placed(before, held, dest, dst, part, trace, tree)
      decreases Folders(tree) - expanded
    {
      CopyOpens(source, src, tree, part, queue, expanded);
      var next := queue[|queue| - 1];
      queue := queue[..|queue| - 1];
      ok, dest, queue, part, trace :=
        CopyEntries(source, src, dest, dst, next, queue, before, held, tree, expanded, part, trace);
      if !ok {
        return;
      }
      ExpandEnd(tree, part, queue, expanded, next);
      expanded := expanded + {next};
    }
    ok := true;
  }

  method CopyTree(source: FileSystem, src: Path, made: FileSystem, dst: Path, ghost before: FileSystem,
                  ghost held: FileSystem, ghost tree: FileSystem)
    returns (ok: bool, dest: FileSystem, ghost trace: seq<FileSystem>)
    requires WellFormed(source)
    requires CanMkdir(before, dst) && src in source && source[src].Folder?
    requires made == MkdirAll(before, dst) && held == Tree(before, dst) && tree == Tree(source, src)
    ensures Writes(trace, before, dst, tree) && trace[|trace| - 1] == dest
    ensures ok <==> Compatible(held, tree)
    ensures ok ==> Overwritten(dest, dst, held, tree)
  {
    ghost var part, expanded;
    ok, dest, part, expanded, trace := CopyFolders(source, src, made, dst, before, held, tree);
    if ok {
      CopyEnds(source, src, before, held, dest, dst, part, trace, tree, expanded);
    }
  }

  /**
   Copies a directory into one of another file system, which may exist. It succeeds exactly if the source is a
   directory, the destination can be created, and no file meets a folder of the same name. Then the destination holds
   what it held before, overwritten by the tree of the source. `trace` is the destination after each single write.
   */
  method CopyDirBetweenSystems(source: FileSystem, src: Path, destination: FileSystem, dst: Path)
    returns (r: Outcome<FileSystem>, ghost trace: seq<FileSystem>)
    requires WellFormed(source)
    ensures r.Ok? <==> && CanMkdir(destination, dst) && src in source && source[src].Folder?
                       && Compatible(Tree(destination, dst), Tree(source, src))
    ensures r.Ok? ==> Overwritten(r.value, dst, Tree(destination, dst), Tree(source, src))
    ensures if CanMkdir(destination, dst) then Writes(trace, destination, dst, Tree(source, src)) else trace == []
    ensures r.Ok? ==> trace != [] && trace[|trace| - 1] == r.value
  {
    if !CanMkdir(destination, dst) {
      return Err("cannot create directory"), [];
    }
    var made := MkdirAll(destination, dst);
    if src !in source || source[src].File? {
      return Err("cannot list directory"), [made];
    }
    var ok, dest;
    ok, dest, trace := CopyTree(source, src, made, dst, destination, Tree(destination, dst), Tree(source, src));
    return if ok then Ok(dest) else Err("a file and a folder of the same name"), trace;
  }
}
