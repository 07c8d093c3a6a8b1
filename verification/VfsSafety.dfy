/** The running totals of the tree against its real cost. */
module VfsSafety {
  // How each operation moves the difference, exactly. Only two things move it: an append that joins a character across
  // the two texts, and a move that replaces an ancestor.

  import opened Common
  import Utf16
  import opened VfsModel

  // ------------------------------------------------------------------ costs of changed directories

  function MaybeBytes(n: Option<Node>): nat { if n.Some? then NodeBytes(n.value) else 0 }

  function MaybeCount(n: Option<Node>): nat { if n.Some? then NodeCount(n.value) else 0 }

  lemma {:induction false} SetCost(es: Entries, name: Utf16.Text, node: Node)
    ensures EntryBytes(Set(es, name, node)) == EntryBytes(es) - MaybeBytes(Get(es, name)) + NodeBytes(node)
    ensures EntryCount(Set(es, name, node)) == EntryCount(es) - MaybeCount(Get(es, name)) + NodeCount(node)
    decreases es
  {
    match es
    case Nil => assert Set(es, name, node) == Entry(name, node, Nil);
    case Entry(m, n, rest) => SetCost(rest, name, node);
  }

  lemma {:induction false} DeleteCost(es: Entries, name: Utf16.Text)
    ensures EntryBytes(Delete(es, name)) == EntryBytes(es) - MaybeBytes(Get(es, name))
    ensures EntryCount(Delete(es, name)) == EntryCount(es) - MaybeCount(Get(es, name))
    decreases es
  {
    match es
    case Nil =>
    case Entry(m, n, rest) => DeleteCost(rest, name);
  }

  lemma {:induction false} GraftCost(n: Node, path: Path, node: Node)
    requires Walk(n, path).Ok?
    ensures NodeBytes(Graft(n, path, node)) == NodeBytes(n) - NodeBytes(Walk(n, path).value) + NodeBytes(node)
    ensures NodeCount(Graft(n, path, node)) == NodeCount(n) - NodeCount(Walk(n, path).value) + NodeCount(node)
    decreases |path|
  {
    if path != [] {
      var next := Get(n.entries, path[0]).value;
      GraftCost(next, path[1..], node);
      SetCost(n.entries, path[0], Graft(next, path[1..], node));
    }
  }

  /** A name set or deleted in the directory above `path`. */
  lemma {:induction false} InParentCost(fs: Fs, path: Path, es: Entries, next: Entries)
    requires Walk(fs.root, DirName(path)) == Ok(Dir(es))
    ensures NodeBytes(InParent(fs, path, next)) == NodeBytes(fs.root) - EntryBytes(es) + EntryBytes(next)
    ensures NodeCount(InParent(fs, path, next)) == NodeCount(fs.root) - EntryCount(es) + EntryCount(next)
  {
    GraftCost(fs.root, DirName(path), Dir(next));
  }

  // ------------------------------------------------------------------ the difference

  /** What the totals say beyond what the tree costs. */
  function ByteDrift(fs: Fs): int { fs.usedBytes - NodeBytes(fs.root) }

  function NodeDrift(fs: Fs): int { fs.nodeCount - NodeCount(fs.root) }

  predicate Exact(fs: Fs) { ByteDrift(fs) == 0 && NodeDrift(fs) == 0 }

  predicate WithinQuota(z: Limits, fs: Fs) { !Over(z.maxBytes, fs.usedBytes) && !Over(z.maxNodes, fs.nodeCount) }

  predicate Drifts(fs: Fs, next: Fs, bytes: int, nodes: int) {
    ByteDrift(next) == ByteDrift(fs) + bytes && NodeDrift(next) == NodeDrift(fs) + nodes
  }

  // ------------------------------------------------------------------ writing

  /** The file an append goes to, when it is a text that the new text continues in the middle of a character. */
  predicate Splits(fs: Fs, path: Path, content: Content, append: bool) {
    && append && content.Str? && Parent(fs, path).Ok?
    && var was := Get(Parent(fs, path).value.entries, BaseName(path));
      was.Some? && was.value.File? && was.value.content.Str? && Utf16.Joins(was.value.content.text, content.text)
  }

  lemma {:induction false} ConcatCost(a: Content, b: Content)
    ensures ContentBytes(Concat(a, b)) == ContentBytes(a) + ContentBytes(b)
                                          - if a.Str? && b.Str? && Utf16.Joins(a.text, b.text) then 2 else 0
  {
    if a.Str? && b.Str? { Utf16.LengthsAdd(a.text, b.text); }
  }

  lemma {:induction false} WrittenDrifts(z: Limits, fs: Fs, path: Path, es: Entries, content: Content, bytes: int,
      nodes: int)
    requires Walk(fs.root, DirName(path)) == Ok(Dir(es))
    ensures var (next, refused) := Written(z, fs, path, es, content, bytes, nodes);
      var was := Get(es, BaseName(path));
      if refused.Some? then next == fs
      else
        && Drifts(fs, next, bytes + MaybeBytes(was) - ContentBytes(content), nodes + MaybeCount(was) - 1)
        && WithinQuota(z, next)
  {
    InParentCost(fs, path, es, Set(es, BaseName(path), File(content)));
    SetCost(es, BaseName(path), File(content));
  }

  /** A refused write changes nothing; a write that is done keeps the totals exact unless it splits a character. */
  lemma {:induction false} WriteDrifts(z: Limits, fs: Fs, path: Path, content: Content, append: bool)
    ensures var (next, refused) := WriteFile(z, fs, path, content, append);
      if refused.Some? then next == fs
      else WithinQuota(z, next) && Drifts(fs, next, if Splits(fs, path, content, append) then 2 else 0, 0)
  {
    var p := Parent(fs, path);
    if p.Ok? {
      var es := p.value.entries;
      assert p.value == Dir(es);
      var was := Get(es, BaseName(path));
      if was.None? {
        WrittenDrifts(z, fs, path, es, content, ContentBytes(content), 1);
      } else if was.value.File? {
        if append {
          ConcatCost(was.value.content, content);
          WrittenDrifts(z, fs, path, es, Concat(was.value.content, content), ContentBytes(content), 0);
        } else {
          WrittenDrifts(z, fs, path, es, content, ContentBytes(content) - ContentBytes(was.value.content), 0);
        }
      }
    }
  }

  /** The exact condition for a write that is done. */
  lemma {:induction false} WriteExactIff(z: Limits, fs: Fs, path: Path, content: Content, append: bool)
    requires Exact(fs) && WriteFile(z, fs, path, content, append).1 == None
    ensures Exact(WriteFile(z, fs, path, content, append).0) <==> !Splits(fs, path, content, append)
  {
    WriteDrifts(z, fs, path, content, append);
  }

  /** And it does happen: a character written as two appends is charged six bytes and stored in four. */
  lemma {:induction false} SplitCharacterDrifts(z: Limits)
    requires z.maxBytes == None && z.maxNodes == None
    ensures var fs := Fs(Dir(Entry([97], File(Str([0xD83D])), Nil)), 3, 2);
      Exact(fs) && !Exact(WriteFile(z, fs, [[97]], Str([0xDE00]), true).0)
  {
    var f := File(Str([0xD83D]));
    var fs := Fs(Dir(Entry([97], f, Nil)), 3, 2);
    assert Utf16.Points([0xD83D]) == [0xFFFD] by { assert [0xD83D][1..] == []; }
    Utf16.OneLength(0xFFFD);
    assert NodeBytes(f) == 3 && NodeCount(f) == 1;
    assert EntryBytes(Nil) == 0 && EntryCount(Nil) == 0;
    assert Exact(fs);
    assert DirName([[97]]) == [] && BaseName([[97]]) == [97];
    assert Get(fs.root.entries, [97]) == Some(f);
    assert Splits(fs, [[97]], Str([0xDE00]), true);
    WriteExactIff(z, fs, [[97]], Str([0xDE00]), true);
  }

  // ------------------------------------------------------------------ directories

  lemma {:induction false} MkdirDrifts(z: Limits, fs: Fs, path: Path)
    ensures var (next, refused) := Mkdir(z, fs, path);
      if refused.Some? then next == fs else WithinQuota(z, next) && Drifts(fs, next, 0, 0)
  {
    var p := Parent(fs, path);
    if p.Ok? {
      var es := p.value.entries;
      assert p.value == Dir(es);
      InParentCost(fs, path, es, Set(es, BaseName(path), Dir(Nil)));
      SetCost(es, BaseName(path), Dir(Nil));
    }
  }

  /** Making directories along a path may stop half-way; what was made until then is accounted for. */
  lemma {:induction false} MakeAllDrifts(z: Limits, fs: Fs, done: Path, todo: Path)
    requires Walk(fs.root, done).Ok?
    ensures Drifts(fs, MakeAll(z, fs, done, todo).0, 0, 0)
    ensures WithinQuota(z, fs) ==> WithinQuota(z, MakeAll(z, fs, done, todo).0)
    decreases |todo|
  {
    if todo != [] {
      var here := Walk(fs.root, done).value;
      if here.Dir? {
        if Get(here.entries, todo[0]).Some? {
          WalkFurther(fs.root, done, todo[0]);
          MakeAllDrifts(z, fs, done + [todo[0]], todo[1..]);
        } else if Reserve(z, fs, 0, 1).Ok? {
          MadeOne(z, fs, done, todo[0]);
          var r := Reserve(z, fs, 0, 1).value.(root := Graft(fs.root, done, Dir(Set(here.entries, todo[0], Dir(Nil)))));
          MakeAllDrifts(z, r, done + [todo[0]], todo[1..]);
        }
      }
    }
  }

  lemma {:induction false} MadeOne(z: Limits, fs: Fs, done: Path, name: Utf16.Text)
    requires Walk(fs.root, done).Ok? && Walk(fs.root, done).value.Dir?
    requires Get(Walk(fs.root, done).value.entries, name).None? && Reserve(z, fs, 0, 1).Ok?
    ensures var es := Walk(fs.root, done).value.entries;
      var r := Reserve(z, fs, 0, 1).value.(root := Graft(fs.root, done, Dir(Set(es, name, Dir(Nil)))));
      WithinQuota(z, r) && Drifts(fs, r, 0, 0) && Walk(r.root, done + [name]).Ok?
  {
    var es := Walk(fs.root, done).value.entries;
    GraftCost(fs.root, done, Dir(Set(es, name, Dir(Nil))));
    SetCost(es, name, Dir(Nil));
    WalkGraft(fs.root, done, Dir(Set(es, name, Dir(Nil))));
    GetSet(es, name, Dir(Nil), name);
    WalkFurther(Graft(fs.root, done, Dir(Set(es, name, Dir(Nil)))), done, name);
  }

  lemma {:induction false} RemoveDrifts(z: Limits, fs: Fs, path: Path, recursive: bool)
    ensures var (next, refused) := Remove(fs, path, recursive);
      if refused.Some? then next == fs
      else Drifts(fs, next, 0, 0) && (WithinQuota(z, fs) ==> WithinQuota(z, next))
  {
    if path != [] {
      var p := Walk(fs.root, DirName(path));
      if p.Ok? && p.value.Dir? {
        var es := p.value.entries;
        InParentCost(fs, path, es, Delete(es, BaseName(path)));
        DeleteCost(es, BaseName(path));
      }
    }
  }

  // ------------------------------------------------------------------ moving

  /** A change at `final` is not seen by a walk that neither passes through it nor stops above it. */
  lemma {:induction false} WalkBeside(n: Node, final: Path, node: Node, path: Path)
    requires final != [] && Walk(n, DirName(final)).Ok? && Walk(n, DirName(final)).value.Dir?
    requires !(final <= path) && !(path <= final)
    ensures var es := Set(Walk(n, DirName(final)).value.entries, BaseName(final), node);
      Walk(Graft(n, DirName(final), Dir(es)), path) == Walk(n, path)
    decreases |path|
  {
    var above, b := DirName(final), BaseName(final);
    assert path != [];
    if above == [] {
      assert final == [b];
      GetSet(n.entries, b, node, path[0]);
      assert path[0] == b ==> final <= path;
    } else {
      var next := Get(n.entries, above[0]).value;
      var rest := final[1..];
      assert DirName(rest) == above[1..] && BaseName(rest) == b;
      var changed := Graft(next, above[1..], Dir(Set(Walk(n, above).value.entries, b, node)));
      GetSet(n.entries, above[0], changed, path[0]);
      if path[0] == above[0] {
        assert final == [above[0]] + rest && path == [above[0]] + path[1..];
        WalkBeside(next, rest, node, path[1..]);
      }
    }
  }

  /** The directory above a node that is there, and the node in it. */
  lemma {:induction false} WalkInit(n: Node, path: Path)
    requires path != [] && Walk(n, path).Ok?
    ensures Walk(n, DirName(path)).Ok? && Walk(n, DirName(path)).value.Dir?
    ensures Get(Walk(n, DirName(path)).value.entries, BaseName(path)) == Some(Walk(n, path).value)
    decreases |path|
  {
    if |path| == 1 {
      assert path[1..] == [] && DirName(path) == [];
    } else {
      var next := Get(n.entries, path[0]).value;
      WalkInit(next, path[1..]);
      assert DirName(path)[0] == path[0] && DirName(path)[1..] == DirName(path[1..])
          && BaseName(path[1..]) == BaseName(path);
    }
  }

  /** Nothing is found below a file. */
  lemma {:induction false} NothingBelowFile(n: Node, path: Path, more: Path)
    requires Walk(n, path).Ok? && Walk(n, path).value.File? && more != []
    ensures Walk(n, path + more) == Err(ENOTDIR)
  {
    WalkAppend(n, path, more);
  }

  /** The move goes as far as replacing what stands at its destination. */
  predicate Proceeds(fs: Fs, from: Path, to: Path) {
    && Walk(fs.root, from).Ok?
    && var final := FinalPath(fs, from, to);
      && final != from
      && !(Walk(fs.root, from).value.Dir? && from != [] && Under(final, from))
      && Parent(fs, final).Ok?
  }

  /** What is replaced is a directory that the moved node lies in. */
  predicate ReplacesAncestor(fs: Fs, from: Path, to: Path) {
    Proceeds(fs, from, to) && FinalPath(fs, from, to) <= from
  }

  lemma {:induction false} FinalNotRoot(fs: Fs, from: Path, to: Path)
    requires Proceeds(fs, from, to) && from != []
    ensures FinalPath(fs, from, to) != []
  {}

  /** What the first half of a move leaves. */
  function Placed(fs: Fs, node: Node, final: Path, es: Entries): Fs
    requires Walk(fs.root, DirName(final)).Ok?
  {
    var gone := Get(es, BaseName(final));
    Fs(InParent(fs, final, Set(es, BaseName(final), node)),
       fs.usedBytes - MaybeBytes(gone), fs.nodeCount - MaybeCount(gone))
  }

  lemma {:induction false} PlacedDrifts(fs: Fs, node: Node, final: Path, es: Entries)
    requires Walk(fs.root, DirName(final)) == Ok(Dir(es))
    ensures Drifts(fs, Placed(fs, node, final, es), 0 - NodeBytes(node), 0 - NodeCount(node))
  {
    InParentCost(fs, final, es, Set(es, BaseName(final), node));
    SetCost(es, BaseName(final), node);
  }

  lemma {:induction false} TakenDrifts(f: Fs, from: Path, left: Entries)
    requires Walk(f.root, DirName(from)) == Ok(Dir(left))
    ensures Drifts(f, f.(root := InParent(f, from, Delete(left, BaseName(from)))),
                   MaybeBytes(Get(left, BaseName(from))), MaybeCount(Get(left, BaseName(from))))
  {
    InParentCost(f, from, left, Delete(left, BaseName(from)));
    DeleteCost(left, BaseName(from));
  }

  /**
   * A move beside its source keeps both totals exact: it adds the node where it goes and takes it from where it was.
   */
  lemma {:induction false} MoveBeside(fs: Fs, from: Path, to: Path)
    requires from != [] && Proceeds(fs, from, to) && !ReplacesAncestor(fs, from, to)
    ensures Move(fs, from, to).1 == None && Drifts(fs, Move(fs, from, to).0, 0, 0)
  {
    var final, node := FinalPath(fs, from, to), Walk(fs.root, from).value;
    var es := Parent(fs, final).value.entries;
    FinalNotRoot(fs, from, to);
    if from <= final {
      assert final == from + final[|from|..];
      assert DirName(final) == from + DirName(final[|from|..]);
      if DirName(final[|from|..]) != [] { NothingBelowFile(fs.root, from, DirName(final[|from|..])); }
    }
    WalkBeside(fs.root, final, node, from);
    var f := Placed(fs, node, final, es);
    assert Walk(f.root, from) == Ok(node);
    WalkInit(f.root, from);
    var left := Walk(f.root, DirName(from)).value.entries;
    PlacedDrifts(fs, node, final, es);
    TakenDrifts(f, from, left);
  }

  lemma {:induction false} WalkCosts(n: Node, path: Path)
    requires Walk(n, path).Ok?
    ensures NodeCount(Walk(n, path).value) <= NodeCount(n)
    decreases |path|
  {
    if path != [] {
      GetCosts(n.entries, path[0]);
      WalkCosts(Get(n.entries, path[0]).value, path[1..]);
    }
  }

  lemma {:induction false} GetCosts(es: Entries, name: Utf16.Text)
    ensures MaybeCount(Get(es, name)) <= EntryCount(es)
    decreases es
  {
    match es
    case Nil =>
    case Entry(m, n, rest) => GetCosts(rest, name);
  }

  /** Replacing an ancestor of the moved node always leaves fewer nodes counted than there are. */
  lemma {:induction false} MoveOverAncestor(fs: Fs, from: Path, to: Path)
    requires from != [] && ReplacesAncestor(fs, from, to)
    ensures NodeDrift(Move(fs, from, to).0) < NodeDrift(fs)
  {
    var final, node := FinalPath(fs, from, to), Walk(fs.root, from).value;
    var es := Parent(fs, final).value.entries;
    FinalNotRoot(fs, from, to);
    var f := Placed(fs, node, final, es);
    PlacedDrifts(fs, node, final, es);
    var more := DirName(from)[|final|..];
    assert DirName(from) == final + more;
    PlacedAt(fs, node, final, es);
    WalkAppend(f.root, final, more);
    var q := Walk(f.root, DirName(from));
    if q.Ok? && q.value.Dir? {
      WalkCosts(node, more);
      GetCosts(q.value.entries, BaseName(from));
      TakenDrifts(f, from, q.value.entries);
    }
  }

  lemma {:induction false} PlacedAt(fs: Fs, node: Node, final: Path, es: Entries)
    requires final != [] && Walk(fs.root, DirName(final)) == Ok(Dir(es))
    ensures Walk(Placed(fs, node, final, es).root, final) == Ok(node)
  {
    var d := Dir(Set(es, BaseName(final), node));
    WalkGraft(fs.root, DirName(final), d);
    GetSet(es, BaseName(final), node, BaseName(final));
    WalkFurther(InParent(fs, final, Set(es, BaseName(final), node)), DirName(final), BaseName(final));
    assert DirName(final) + [BaseName(final)] == final;
  }

  /** A file moved over its own directory: the move stops half-way, and the totals, exact before, are so no more. */
  lemma {:induction false} MoveOverParentDrifts()
    ensures var a: Utf16.Text := [97];
      var fs := Fs(Dir(Entry(a, Dir(Entry(a, File(Str([])), Nil)), Nil)), 0, 3);
      && Exact(fs) && ReplacesAncestor(fs, [a, a], [])
      && Move(fs, [a, a], []).1 == Some(TypeFault) && !Exact(Move(fs, [a, a], []).0)
  {
    var a: Utf16.Text := [97];
    var inner := Dir(Entry(a, File(Str([])), Nil));
    var fs := Fs(Dir(Entry(a, inner, Nil)), 0, 3);
    assert [a, a][1..] == [a] && [a][1..] == [];
    assert Walk(inner, [a]) == Ok(File(Str([])));
    assert Walk(fs.root, [a, a]) == Ok(File(Str([])));
    assert FinalPath(fs, [a, a], []) == [a];
    assert DirName([a]) == [] && [a] <= [a, a] && Parent(fs, [a]).Ok?;
    assert Proceeds(fs, [a, a], []) && ReplacesAncestor(fs, [a, a], []);
    assert Exact(fs);
    MoveOverAncestor(fs, [a, a], []);
  }

  /** The exact condition: a move of anything but the root keeps the totals if and only if it replaces no ancestor. */
  lemma {:induction false} MoveExactIff(fs: Fs, from: Path, to: Path)
    requires from != []
    ensures Drifts(fs, Move(fs, from, to).0, 0, 0) <==> !ReplacesAncestor(fs, from, to)
  {
    if Proceeds(fs, from, to) {
      if ReplacesAncestor(fs, from, to) { MoveOverAncestor(fs, from, to); } else { MoveBeside(fs, from, to); }
    }
  }

  /** Moving the root anywhere that can take an entry would make it its own descendant. */
  lemma {:induction false} MoveOfRoot(fs: Fs, to: Path)
    ensures Move(fs, [], to).0 == fs
    ensures Move(fs, [], to).1 == Some(Cyclic) <==> to != [] && Parent(fs, to).Ok?
  {
    assert Walk(fs.root, []) == Ok(fs.root);
    if to != [] && !Parent(fs, to).Ok? { assert Move(fs, [], to).1 == Some(Parent(fs, to).error); }
    CyclicIsOwn(fs, to);
  }

  lemma {:induction false} CyclicIsOwn(fs: Fs, to: Path)
    ensures Parent(fs, to).Err? ==> Parent(fs, to).error != Cyclic
  {
    WalkErrors(fs.root, DirName(to));
  }

  lemma {:induction false} WalkErrors(n: Node, path: Path)
    ensures Walk(n, path).Err? ==> Walk(n, path).error == ENOENT || Walk(n, path).error == ENOTDIR
    decreases |path|
  {
    if path != [] && n.Dir? && Get(n.entries, path[0]).Some? { WalkErrors(Get(n.entries, path[0]).value, path[1..]); }
  }

  lemma {:induction false} MoveKeepsQuota(z: Limits, fs: Fs, from: Path, to: Path)
    requires WithinQuota(z, fs)
    ensures WithinQuota(z, Move(fs, from, to).0)
  {}
}
