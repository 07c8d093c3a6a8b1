/**
 * The quota-accounted tree of runtime/hermit/src/main/spiral/vfs.js, as a value, and its operations.
 *
 * Paths are resolved ones, given as their segments. A directory keeps its entries in the order they were added. Times
 * and modes are left out. A directory given a second place in the tree, which `move` of the root does,
 * has no value here; that outcome is `Cyclic`.
 */
module VfsModel {
  import opened Common
  import Utf16

  datatype Content = Str(text: Utf16.Text) | Buf(bytes: seq<Byte>)

  datatype Node = File(content: Content) | Dir(entries: Entries)

  datatype Entries = Nil | Entry(name: Utf16.Text, node: Node, rest: Entries)

  type Path = seq<Utf16.Text>

  datatype Error = ENOENT | ENOTDIR | EISDIR | EEXIST | EPERM | ENOTEMPTY | EINVAL | EDQUOT | TypeFault | Cyclic

  datatype Limits = Limits(maxBytes: Option<nat>, maxNodes: Option<nat>)

  datatype Fs = Fs(root: Node, usedBytes: int, nodeCount: int)

  // ------------------------------------------------------------------ contents

  function BytesOf(c: Content): seq<Byte> { if c.Buf? then c.bytes else Utf16.Bytes(c.text) }

  function ContentBytes(c: Content): nat { |BytesOf(c)| }

  /** Raw bytes on either side are kept raw. */
  function Concat(a: Content, b: Content): Content {
    if a.Str? && b.Str? then Str(a.text + b.text) else Buf(BytesOf(a) + BytesOf(b))
  }

  // ------------------------------------------------------------------ costs

  function NodeBytes(n: Node): nat {
    match n case File(c) => ContentBytes(c) case Dir(es) => EntryBytes(es)
  }

  function EntryBytes(es: Entries): nat {
    match es case Nil => 0 case Entry(_, n, rest) => NodeBytes(n) + EntryBytes(rest)
  }

  function NodeCount(n: Node): nat {
    match n case File(_) => 1 case Dir(es) => 1 + EntryCount(es)
  }

  function EntryCount(es: Entries): nat {
    match es case Nil => 0 case Entry(_, n, rest) => NodeCount(n) + EntryCount(rest)
  }

  // ------------------------------------------------------------------ directories

  function Get(es: Entries, name: Utf16.Text): Option<Node> {
    match es
    case Nil => None
    case Entry(m, n, rest) => if m == name then Some(n) else Get(rest, name)
  }

  /** `Map.set`: in place when the name is there, else behind the others. */
  function Set(es: Entries, name: Utf16.Text, node: Node): Entries {
    match es
    case Nil => Entry(name, node, Nil)
    case Entry(m, n, rest) => if m == name then Entry(m, node, rest) else Entry(m, n, Set(rest, name, node))
  }

  function Delete(es: Entries, name: Utf16.Text): Entries {
    match es
    case Nil => Nil
    case Entry(m, n, rest) => if m == name then rest else Entry(m, n, Delete(rest, name))
  }

  // ------------------------------------------------------------------ walking

  function Walk(n: Node, path: Path): Result<Node, Error>
    decreases |path|
  {
    if path == [] then Ok(n)
    else if n.File? then Err(ENOTDIR)
    else
      match Get(n.entries, path[0])
      case None => Err(ENOENT)
      case Some(next) => Walk(next, path[1..])
  }

  /** The tree with the node at `path` replaced. */
  function Graft(n: Node, path: Path, node: Node): Node
    requires Walk(n, path).Ok?
    decreases |path|
  {
    if path == [] then node
    else Dir(Set(n.entries, path[0], Graft(Get(n.entries, path[0]).value, path[1..], node)))
  }

  function DirName(path: Path): Path { if path == [] then [] else path[..|path| - 1] }

  function BaseName(path: Path): Utf16.Text { if path == [] then [] else path[|path| - 1] }

  /** The directory a name is looked up in; a file there is an error of its own kind. */
  function Parent(fs: Fs, path: Path): Result<Node, Error> {
    match Walk(fs.root, DirName(path))
    case Err(e) => Err(e)
    case Ok(n) => if n.File? then Err(ENOTDIR) else Ok(n)
  }

  function InParent(fs: Fs, path: Path, entries: Entries): Node
    requires Walk(fs.root, DirName(path)).Ok?
  {
    Graft(fs.root, DirName(path), Dir(entries))
  }

  // ------------------------------------------------------------------ quotas

  predicate Over(limit: Option<nat>, n: int) { limit.Some? && n > limit.value }

  function Reserve(z: Limits, fs: Fs, bytes: int, nodes: int): Result<Fs, Error> {
    if Over(z.maxBytes, fs.usedBytes + bytes) || Over(z.maxNodes, fs.nodeCount + nodes) then Err(EDQUOT)
    else Ok(fs.(usedBytes := fs.usedBytes + bytes, nodeCount := fs.nodeCount + nodes))
  }

  // ------------------------------------------------------------------ operations

  function Written(z: Limits, fs: Fs, path: Path, es: Entries, content: Content, bytes: int, nodes: int)
    : (Fs, Option<Error>)
    requires Walk(fs.root, DirName(path)).Ok?
  {
    match Reserve(z, fs, bytes, nodes)
    case Err(e) => (fs, Some(e))
    case Ok(r) => (r.(root := InParent(fs, path, Set(es, BaseName(path), File(content)))), None)
  }

  function WriteFile(z: Limits, fs: Fs, path: Path, content: Content, append: bool): (Fs, Option<Error>) {
    match Parent(fs, path)
    case Err(e) => (fs, Some(e))
    case Ok(parent) =>
      match Get(parent.entries, BaseName(path))
      case None => Written(z, fs, path, parent.entries, content, ContentBytes(content), 1)
      case Some(Dir(_)) => (fs, Some(EISDIR))
      case Some(File(was)) =>
        if append then Written(z, fs, path, parent.entries, Concat(was, content), ContentBytes(content), 0)
        else Written(z, fs, path, parent.entries, content, ContentBytes(content) - ContentBytes(was), 0)
  }

  function Mkdir(z: Limits, fs: Fs, path: Path): (Fs, Option<Error>) {
    match Parent(fs, path)
    case Err(e) => (fs, Some(e))
    case Ok(parent) =>
      if Get(parent.entries, BaseName(path)).Some? then (fs, Some(EEXIST))
      else
        match Reserve(z, fs, 0, 1)
        case Err(e) => (fs, Some(e))
        case Ok(r) => (r.(root := InParent(fs, path, Set(parent.entries, BaseName(path), Dir(Nil)))), None)
  }

  /** `_walk` with `parents`: directories that are missing are made one by one, each with its own reservation. */
  function MakeAll(z: Limits, fs: Fs, done: Path, todo: Path): (Fs, Option<Error>)
    requires Walk(fs.root, done).Ok?
    decreases |todo|
  {
    if todo == [] then (fs, None)
    else
      var here := Walk(fs.root, done).value;
      if here.File? then (fs, Some(ENOTDIR))
      else if Get(here.entries, todo[0]).Some? then
        WalkFurther(fs.root, done, todo[0]);
        MakeAll(z, fs, done + [todo[0]], todo[1..])
      else
        match Reserve(z, fs, 0, 1)
        case Err(e) => (fs, Some(e))
        case Ok(r) =>
          var made := Graft(fs.root, done, Dir(Set(here.entries, todo[0], Dir(Nil))));
          WalkGraft(fs.root, done, Dir(Set(here.entries, todo[0], Dir(Nil))));
          GetSet(here.entries, todo[0], Dir(Nil), todo[0]);
          WalkFurther(made, done, todo[0]);
          MakeAll(z, r.(root := made), done + [todo[0]], todo[1..])
  }

  function MkdirAll(z: Limits, fs: Fs, path: Path): (Fs, Option<Error>) { MakeAll(z, fs, [], path) }

  function Remove(fs: Fs, path: Path, recursive: bool): (Fs, Option<Error>) {
    if path == [] then (fs, Some(EPERM))
    else
      match Walk(fs.root, DirName(path))
      case Err(e) => (fs, Some(e))
      case Ok(File(_)) => (fs, Some(TypeFault))
      case Ok(Dir(es)) =>
        match Get(es, BaseName(path))
        case None => (fs, Some(ENOENT))
        case Some(node) =>
          if node.Dir? && node.entries != Nil && !recursive then (fs, Some(ENOTEMPTY))
          else
            (Fs(InParent(fs, path, Delete(es, BaseName(path))),
                fs.usedBytes - NodeBytes(node), fs.nodeCount - NodeCount(node)), None)
  }

  predicate IsDir(fs: Fs, path: Path) { Walk(fs.root, path).Ok? && Walk(fs.root, path).value.Dir? }

  /** Moving onto a directory moves into it. */
  function FinalPath(fs: Fs, from: Path, to: Path): Path {
    if IsDir(fs, to) && from != [] then to + [BaseName(from)] else to
  }

  predicate Under(path: Path, above: Path) { above <= path }

  /** What stands at the destination is dropped from the totals, then the entry it came from is deleted. */
  function Moved(fs: Fs, node: Node, from: Path, final: Path, es: Entries): (Fs, Option<Error>)
    requires Walk(fs.root, DirName(final)).Ok?
  {
    var gone := Get(es, BaseName(final));
    var f := Fs(InParent(fs, final, Set(es, BaseName(final), node)),
                fs.usedBytes - (if gone.Some? then NodeBytes(gone.value) else 0),
                fs.nodeCount - (if gone.Some? then NodeCount(gone.value) else 0));
    match Walk(f.root, DirName(from))
    case Err(e) => (f, Some(e))
    case Ok(File(_)) => (f, Some(TypeFault))
    case Ok(Dir(left)) => (f.(root := InParent(f, from, Delete(left, BaseName(from)))), None)
  }

  function Move(fs: Fs, from: Path, to: Path): (Fs, Option<Error>) {
    match Walk(fs.root, from)
    case Err(e) => (fs, Some(e))
    case Ok(node) =>
      var final := FinalPath(fs, from, to);
      if final == from then (fs, None)
      else if node.Dir? && from != [] && Under(final, from) then (fs, Some(EINVAL))
      else
        match Parent(fs, final)
        case Err(e) => (fs, Some(e))
        case Ok(parent) =>
          if from == [] then (fs, Some(Cyclic)) else Moved(fs, node, from, final, parent.entries)
  }

  // ------------------------------------------------------------------ lemmas the definitions need

  lemma {:induction false} GetSet(es: Entries, name: Utf16.Text, node: Node, other: Utf16.Text)
    ensures Get(Set(es, name, node), other) == if other == name then Some(node) else Get(es, other)
    decreases es
  {
    match es
    case Nil =>
    case Entry(m, n, rest) => GetSet(rest, name, node, other);
  }

  lemma {:induction false} WalkGraft(n: Node, path: Path, node: Node)
    requires Walk(n, path).Ok?
    ensures Walk(Graft(n, path, node), path) == Ok(node)
    decreases |path|
  {
    if path != [] {
      var next := Get(n.entries, path[0]).value;
      WalkGraft(next, path[1..], node);
      GetSet(n.entries, path[0], Graft(next, path[1..], node), path[0]);
    }
  }

  lemma {:induction false} WalkAppend(n: Node, path: Path, more: Path)
    requires Walk(n, path).Ok?
    ensures Walk(n, path + more) == Walk(Walk(n, path).value, more)
    decreases |path|
  {
    if path == [] {
      assert path + more == more;
    } else {
      assert (path + more)[1..] == path[1..] + more;
      WalkAppend(Get(n.entries, path[0]).value, path[1..], more);
    }
  }

  lemma {:induction false} WalkFurther(n: Node, path: Path, name: Utf16.Text)
    requires Walk(n, path).Ok? && Walk(n, path).value.Dir? && Get(Walk(n, path).value.entries, name).Some?
    ensures Walk(n, path + [name]) == Ok(Get(Walk(n, path).value.entries, name).value)
  {
    WalkAppend(n, path, [name]);
    assert [name][1..] == [];
  }
}
