/** The virtual file system as an object: a root, two running totals, and operations that change them. */
module VirtualFiles {
  import opened Common
  import opened VfsModel
  import opened VfsSnapshot

  class Vfs {
    const limits: Limits
    var root: Node
    var usedBytes: int
    var nodeCount: int

    ghost function State(): Fs
      reads this
    {
      Fs(root, usedBytes, nodeCount)
    }

    constructor (limits: Limits)
      ensures State() == Fs(Dir(Nil), 0, 1) && this.limits == limits
    {
      this.limits := limits;
      root, usedBytes, nodeCount := Dir(Nil), 0, 1;
    }

    /** Quota is reserved before anything changes. */
    method TryReserve(bytes: int, nodes: int) returns (ok: bool)
      modifies `usedBytes, `nodeCount
      ensures ok <==> Reserve(limits, old(State()), bytes, nodes).Ok?
      ensures State() == if ok then Reserve(limits, old(State()), bytes, nodes).value else old(State())
    {
      if limits.maxBytes.Some? && usedBytes + bytes > limits.maxBytes.value { return false; }
      if limits.maxNodes.Some? && nodeCount + nodes > limits.maxNodes.value { return false; }
      usedBytes, nodeCount := usedBytes + bytes, nodeCount + nodes;
      ok := true;
    }

    method Find(path: Path) returns (r: Result<Node, Error>)
      ensures r == Walk(root, path)
    {
      var node := root;
      for i := 0 to |path|
        invariant Walk(root, path) == Walk(node, path[i..])
      {
        assert path[i..][0] == path[i] && path[i..][1..] == path[i + 1..];
        if node.File? { return Err(ENOTDIR); }
        var next := Get(node.entries, path[i]);
        if next.None? { return Err(ENOENT); }
        node := next.value;
      }
      assert path[|path|..] == [];
      r := Ok(node);
    }

    method Write(path: Path, content: Content, append: bool) returns (refused: Option<Error>)
      modifies this
      ensures (State(), refused) == WriteFile(limits, old(State()), path, content, append)
    {
      var parent := Find(DirName(path));
      if parent.Err? { return Some(parent.error); }
      if parent.value.File? { return Some(ENOTDIR); }
      var es := parent.value.entries;
      var was := Get(es, BaseName(path));
      if was.Some? && was.value.Dir? { return Some(EISDIR); }
      var kept := content;
      var ok;
      if was.Some? && append {
        ok := TryReserve(ContentBytes(content), 0);
        kept := Concat(was.value.content, content);
      } else {
        var before := if was.Some? then ContentBytes(was.value.content) else 0;
        ok := TryReserve(ContentBytes(content) - before, if was.Some? then 0 else 1);
      }
      if !ok { return Some(EDQUOT); }
      root := Graft(root, DirName(path), Dir(Set(es, BaseName(path), File(kept))));
      refused := None;
    }

    method MakeDir(path: Path) returns (refused: Option<Error>)
      modifies this
      ensures (State(), refused) == Mkdir(limits, old(State()), path)
    {
      var parent := Find(DirName(path));
      if parent.Err? { return Some(parent.error); }
      if parent.value.File? { return Some(ENOTDIR); }
      var es := parent.value.entries;
      if Get(es, BaseName(path)).Some? { return Some(EEXIST); }
      var ok := TryReserve(0, 1);
      if !ok { return Some(EDQUOT); }
      root := Graft(root, DirName(path), Dir(Set(es, BaseName(path), Dir(Nil))));
      refused := None;
    }

    /** What is missing along the path is made, one directory at a time. */
    method MakeDirs(path: Path) returns (refused: Option<Error>)
      modifies this
      ensures (State(), refused) == MkdirAll(limits, old(State()), path)
    {
      var i := 0;
      assert path[..0] == [] && path[0..] == path;
      while i < |path|
        invariant 0 <= i <= |path| && Walk(root, path[..i]).Ok?
        invariant MakeAll(limits, State(), path[..i], path[i..]) == MkdirAll(limits, old(State()), path)
      {
        var here := Walk(root, path[..i]).value;
        assert path[i..][0] == path[i] && path[i..][1..] == path[i + 1..] && path[..i] + [path[i]] == path[..i + 1];
        if here.File? { return Some(ENOTDIR); }
        if Get(here.entries, path[i]).Some? {
          WalkFurther(root, path[..i], path[i]);
        } else {
          var ok := TryReserve(0, 1);
          if !ok { return Some(EDQUOT); }
          var with := Dir(Set(here.entries, path[i], Dir(Nil)));
          WalkGraft(root, path[..i], with);
          GetSet(here.entries, path[i], Dir(Nil), path[i]);
          root := Graft(root, path[..i], with);
          WalkFurther(root, path[..i], path[i]);
        }
        i := i + 1;
      }
      assert path[i..] == [];
      refused := None;
    }

    method RemoveNode(path: Path, recursive: bool) returns (refused: Option<Error>)
      modifies this
      ensures (State(), refused) == Remove(old(State()), path, recursive)
    {
      if path == [] { return Some(EPERM); }
      var parent := Find(DirName(path));
      if parent.Err? { return Some(parent.error); }
      if parent.value.File? { return Some(TypeFault); }
      var es := parent.value.entries;
      var node := Get(es, BaseName(path));
      if node.None? { return Some(ENOENT); }
      if node.value.Dir? && node.value.entries != Nil && !recursive { return Some(ENOTEMPTY); }
      root := Graft(root, DirName(path), Dir(Delete(es, BaseName(path))));
      usedBytes := usedBytes - NodeBytes(node.value);
      nodeCount := nodeCount - NodeCount(node.value);
      refused := None;
    }

    method MoveNode(from: Path, to: Path) returns (refused: Option<Error>)
      modifies this
      ensures (State(), refused) == Move(old(State()), from, to)
    {
      var source := Find(from);
      if source.Err? { return Some(source.error); }
      var dest := Find(to);
      var final := if dest.Ok? && dest.value.Dir? && from != [] then to + [BaseName(from)] else to;
      if final == from { return None; }
      if source.value.Dir? && from != [] && from <= final { return Some(EINVAL); }
      var parent := Find(DirName(final));
      if parent.Err? { return Some(parent.error); }
      if parent.value.File? { return Some(ENOTDIR); }
      if from == [] { return Some(Cyclic); }
      refused := Replace(source.value, from, final, parent.value.entries);
    }

    method Replace(node: Node, from: Path, final: Path, es: Entries) returns (refused: Option<Error>)
      requires Walk(root, DirName(final)).Ok?
      modifies this
      ensures (State(), refused) == Moved(old(State()), node, from, final, es)
    {
      var gone := Get(es, BaseName(final));
      if gone.Some? {
        usedBytes := usedBytes - NodeBytes(gone.value);
        nodeCount := nodeCount - NodeCount(gone.value);
      }
      root := Graft(root, DirName(final), Dir(Set(es, BaseName(final), node)));
      var source := Find(DirName(from));
      if source.Err? { return Some(source.error); }
      if source.value.File? { return Some(TypeFault); }
      root := Graft(root, DirName(from), Dir(Delete(source.value.entries, BaseName(from))));
      refused := None;
    }

    /** A detached tree is validated and then swapped in. */
    method ImportSnapshot(s: Snap) returns (refused: Option<Error>)
      modifies this
      ensures (State(), refused) == Import(limits, old(State()), s)
    {
      if !s.SDir? { return Some(EINVAL); }
      var loaded := Load(limits, s, 0, 0, 0);
      if loaded.Err? { return Some(loaded.error); }
      root, usedBytes, nodeCount := loaded.value.node, loaded.value.bytes, loaded.value.nodes;
      refused := None;
    }
  }
}
