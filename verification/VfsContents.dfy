/** What the tree holds after an operation, path by path. */
module VfsContents {
  // runtime/hermit/src/main/spiral/vfs.js. Everything is said by what walking a path finds before and after.

  import opened Common
  import Utf16
  import opened VfsModel
  import opened VfsSafety
  import opened VfsSnapshot

  // ------------------------------------------------------------------ a name is in a directory once

  predicate Distinct(n: Node)
    decreases n
  {
    n.Dir? ==> DistinctIn(n.entries)
  }

  predicate DistinctIn(es: Entries)
    decreases es
  {
    es.Entry? ==> Get(es.rest, es.name).None? && Distinct(es.node) && DistinctIn(es.rest)
  }

  lemma {:induction false} GetDistinct(es: Entries, name: Utf16.Text)
    requires DistinctIn(es)
    ensures Get(es, name).Some? ==> Distinct(Get(es, name).value)
    decreases es
  {
    if es.Entry? { GetDistinct(es.rest, name); }
  }

  lemma {:induction false} WalkDistinct(n: Node, path: Path)
    requires Distinct(n)
    ensures Walk(n, path).Ok? ==> Distinct(Walk(n, path).value)
    decreases |path|
  {
    if path != [] && n.Dir? && Get(n.entries, path[0]).Some? {
      GetDistinct(n.entries, path[0]);
      WalkDistinct(Get(n.entries, path[0]).value, path[1..]);
    }
  }

  lemma {:induction false} GetDelete(es: Entries, name: Utf16.Text, other: Utf16.Text)
    requires DistinctIn(es)
    ensures Get(Delete(es, name), other) == if other == name then None else Get(es, other)
    decreases es
  {
    if es.Entry? { GetDelete(es.rest, name, other); }
  }

  lemma {:induction false} SetDistinct(es: Entries, name: Utf16.Text, node: Node)
    requires DistinctIn(es) && Distinct(node)
    ensures DistinctIn(Set(es, name, node))
    decreases es
  {
    match es
    case Nil => assert Set(es, name, node) == Entry(name, node, Nil);
    case Entry(m, n, rest) =>
      SetDistinct(rest, name, node);
      GetSet(rest, name, node, m);
  }

  lemma {:induction false} DeleteDistinct(es: Entries, name: Utf16.Text)
    requires DistinctIn(es)
    ensures DistinctIn(Delete(es, name))
    decreases es
  {
    if es.Entry? {
      DeleteDistinct(es.rest, name);
      GetDelete(es.rest, name, es.name);
    }
  }

  lemma {:induction false} GraftDistinct(n: Node, path: Path, node: Node)
    requires Walk(n, path).Ok? && Distinct(n) && Distinct(node)
    ensures Distinct(Graft(n, path, node))
    decreases |path|
  {
    if path != [] {
      var next := Get(n.entries, path[0]).value;
      GetDistinct(n.entries, path[0]);
      GraftDistinct(next, path[1..], node);
      SetDistinct(n.entries, path[0], Graft(next, path[1..], node));
    }
  }

  // ------------------------------------------------------------------ one changed directory

  /** The place of a name: what `dirname` and `basename` of a path make of it. */
  function Place(path: Path): Path { DirName(path) + [BaseName(path)] }

  /** A strict ancestor. */
  predicate Above(p: Path, place: Path) { p < place }

  /**
   * Beside `place` every walk finds what it found before, and the directories above it are directories still. So the
   * directories above it differ in this one entry.
   */
  ghost predicate Elsewhere(before: Node, after: Node, place: Path) {
    && (forall p: Path :: !(place <= p) && !Above(p, place) ==> Walk(after, p) == Walk(before, p))
    && (forall p: Path :: Above(p, place) ==>
          Walk(before, p).Ok? && Walk(before, p).value.Dir? && Walk(after, p).Ok? && Walk(after, p).value.Dir?)
  }

  /** At `place` and below there is this node, or nothing. */
  ghost predicate Holds(after: Node, place: Path, node: Option<Node>) {
    forall more: Path :: Walk(after, place + more) == if node.None? then Err(ENOENT) else Walk(node.value, more)
  }

  lemma {:induction false} WalkPrefix(n: Node, path: Path, more: Path)
    requires Walk(n, path + more).Ok?
    ensures Walk(n, path).Ok? && (more != [] ==> Walk(n, path).value.Dir?)
    decreases |path|
  {
    if path == [] {
      assert path + more == more;
    } else {
      assert (path + more)[1..] == path[1..] + more;
      WalkPrefix(Get(n.entries, path[0]).value, path[1..], more);
    }
  }

  lemma {:induction false} DirAbove(n: Node, above: Path, name: Utf16.Text, p: Path)
    requires Walk(n, above).Ok? && Walk(n, above).value.Dir? && p < above + [name]
    ensures Walk(n, p).Ok? && Walk(n, p).value.Dir?
  {
    assert p <= above;
    assert above == p + above[|p|..];
    WalkPrefix(n, p, above[|p|..]);
    if p == above {}
  }

  lemma {:induction false} BesideSame(n: Node, above: Path, es: Entries, name: Utf16.Text, p: Path)
    requires Walk(n, above).Ok? && Walk(n, above).value.Dir?
    requires forall m :: m != name ==> Get(es, m) == Get(Walk(n, above).value.entries, m)
    requires !(above + [name] <= p) && !(p < above + [name])
    ensures Walk(Graft(n, above, Dir(es)), p) == Walk(n, p)
    decreases |above|
  {
    if above == [] {
      assert p != [] && (p[0] == name ==> [name] <= p);
    } else {
      var next := Get(n.entries, above[0]).value;
      GetSet(n.entries, above[0], Graft(next, above[1..], Dir(es)), p[0]);
      if p[0] == above[0] {
        assert above + [name] == [above[0]] + (above[1..] + [name]) && p == [p[0]] + p[1..];
        BesideSame(next, above[1..], es, name, p[1..]);
      }
    }
  }

  /** The directory above a place gets entries that differ in one name only. */
  lemma {:induction false} OneChanged(n: Node, above: Path, es: Entries, name: Utf16.Text)
    requires Walk(n, above).Ok? && Walk(n, above).value.Dir?
    requires forall m :: m != name ==> Get(es, m) == Get(Walk(n, above).value.entries, m)
    ensures Elsewhere(n, Graft(n, above, Dir(es)), above + [name])
    ensures Holds(Graft(n, above, Dir(es)), above + [name], Get(es, name))
  {
    var after, place := Graft(n, above, Dir(es)), above + [name];
    WalkGraft(n, above, Dir(es));
    forall p: Path | !(place <= p) && !Above(p, place) ensures Walk(after, p) == Walk(n, p) {
      BesideSame(n, above, es, name, p);
    }
    forall p: Path | Above(p, place)
      ensures Walk(n, p).Ok? && Walk(n, p).value.Dir? && Walk(after, p).Ok? && Walk(after, p).value.Dir?
    {
      DirAbove(n, above, name, p);
      DirAbove(after, above, name, p);
    }
    forall more: Path
      ensures Walk(after, place + more) == if Get(es, name).None? then Err(ENOENT) else Walk(Get(es, name).value, more)
    {
      assert place + more == above + ([name] + more);
      WalkAppend(after, above, [name] + more);
      assert ([name] + more)[1..] == more;
    }
  }

  lemma {:induction false} OneSet(n: Node, above: Path, name: Utf16.Text, node: Node)
    requires Walk(n, above).Ok? && Walk(n, above).value.Dir?
    ensures var after := Graft(n, above, Dir(Set(Walk(n, above).value.entries, name, node)));
      Elsewhere(n, after, above + [name]) && Holds(after, above + [name], Some(node))
  {
    var es := Walk(n, above).value.entries;
    forall m ensures Get(Set(es, name, node), m) == if m == name then Some(node) else Get(es, m) {
      GetSet(es, name, node, m);
    }
    OneChanged(n, above, Set(es, name, node), name);
  }

  lemma {:induction false} OneDeleted(n: Node, above: Path, name: Utf16.Text)
    requires Walk(n, above).Ok? && Walk(n, above).value.Dir? && Distinct(n)
    ensures var after := Graft(n, above, Dir(Delete(Walk(n, above).value.entries, name)));
      Elsewhere(n, after, above + [name]) && Holds(after, above + [name], None)
  {
    var es := Walk(n, above).value.entries;
    WalkDistinct(n, above);
    forall m ensures Get(Delete(es, name), m) == if m == name then None else Get(es, m) { GetDelete(es, name, m); }
    OneChanged(n, above, Delete(es, name), name);
  }

  // ------------------------------------------------------------------ removing

  /** The directory the name goes into, if there is one. */
  predicate HasParent(fs: Fs, path: Path) {
    Walk(fs.root, DirName(path)).Ok? && Walk(fs.root, DirName(path)).value.Dir?
  }

  /** Something a removal takes: a file, an empty directory, or anything when it is recursive. */
  predicate Removable(fs: Fs, path: Path, recursive: bool) {
    && path != [] && Walk(fs.root, path).Ok?
    && (Walk(fs.root, path).value.File? || Walk(fs.root, path).value == Dir(Nil) || recursive)
  }

  /**
   * A removal succeeds exactly on what exists below the root and is a file, an empty directory, or removed recursively.
   * Then nothing is found there and everything beside it is as it was. A refusal changes nothing.
   */
  lemma {:induction false} RemoveDecided(fs: Fs, path: Path, recursive: bool)
    requires Distinct(fs.root)
    ensures var (after, refused) := Remove(fs, path, recursive);
      && (refused.None? <==> Removable(fs, path, recursive))
      && (refused.None? ==> Elsewhere(fs.root, after.root, path) && Holds(after.root, path, None))
      && (refused.Some? ==> after == fs)
  {
    if path != [] {
      assert DirName(path) + [BaseName(path)] == path;
      if Walk(fs.root, path).Ok? { WalkInit(fs.root, path); }
      var up := Walk(fs.root, DirName(path));
      if up.Ok? && up.value.Dir? {
        if Get(up.value.entries, BaseName(path)).Some? { WalkFurther(fs.root, DirName(path), BaseName(path)); }
        OneDeleted(fs.root, DirName(path), BaseName(path));
      }
    }
  }

  /** Why a removal is refused. */
  lemma {:induction false} RemoveRefused(fs: Fs, path: Path, recursive: bool)
    ensures var refused := Remove(fs, path, recursive).1;
      && (refused == Some(EPERM) <==> path == [])
      && (refused == Some(ENOTEMPTY) <==>
            path != [] && Walk(fs.root, path).Ok? && Walk(fs.root, path).value.Dir?
            && Walk(fs.root, path).value.entries.Entry? && !recursive)
      && (path != [] && Walk(fs.root, DirName(path)).Err? ==> refused == Some(Walk(fs.root, DirName(path)).error))
      && (path != [] && Walk(fs.root, DirName(path)).Ok? && Walk(fs.root, DirName(path)).value.File? ==>
            refused == Some(TypeFault))
      && (path != [] && HasParent(fs, path) && Walk(fs.root, path).Err? ==> refused == Some(ENOENT))
  {
    if path != [] {
      assert DirName(path) + [BaseName(path)] == path;
      WalkErrors(fs.root, DirName(path));
      if Walk(fs.root, path).Ok? { WalkInit(fs.root, path); }
      var up := Walk(fs.root, DirName(path));
      if up.Ok? && up.value.Dir? && Get(up.value.entries, BaseName(path)).Some? {
        WalkFurther(fs.root, DirName(path), BaseName(path));
      }
    }
  }

  // ------------------------------------------------------------------ writing

  /** What a file holds after a write: the new contents, behind the old ones for an append. */
  predicate NewContents(before: Option<Node>, after: Content, content: Content, append: bool) {
    if append && before.Some? && before.value.File? then
      var was := before.value.content;
      && BytesOf(after) == (if was.Str? && content.Str? then Utf16.Bytes(was.text + content.text)
                            else BytesOf(was) + BytesOf(content))
      && (after.Str? <==> was.Str? && content.Str?)
      && (after.Str? ==> after.text == was.text + content.text)
    else after == content
  }

  /** What stands at the place of a path. */
  function Standing(fs: Fs, path: Path): Option<Node> {
    if HasParent(fs, path) then Get(Walk(fs.root, DirName(path)).value.entries, BaseName(path)) else None
  }

  /** What a write charges. */
  function Charge(was: Option<Node>, content: Content, append: bool): int {
    |BytesOf(content)| - if was.Some? && was.value.File? && !append then |BytesOf(was.value.content)| else 0
  }

  /**
   * A write succeeds exactly when the directory is there, no directory stands in its place, and both quotas have room.
   * Then the file reads back as the new contents, behind the old ones for an append, and every path beside it reads as
   * before. A refusal changes nothing.
   */
  lemma {:induction false} WriteDecided(z: Limits, fs: Fs, path: Path, content: Content, append: bool)
    ensures var (after, refused) := WriteFile(z, fs, path, content, append);
      var was := Standing(fs, path);
      && (refused.None? <==>
            && HasParent(fs, path) && (was.Some? ==> was.value.File?)
            && (z.maxBytes.Some? ==> fs.usedBytes + Charge(was, content, append) <= z.maxBytes.value)
            && (z.maxNodes.Some? ==> fs.nodeCount + (if was.None? then 1 else 0) <= z.maxNodes.value))
      && (refused.None? ==>
            && Walk(after.root, Place(path)).Ok? && Walk(after.root, Place(path)).value.File?
            && NewContents(was, Walk(after.root, Place(path)).value.content, content, append)
            && Elsewhere(fs.root, after.root, Place(path))
            && after.usedBytes == fs.usedBytes + Charge(was, content, append)
            && after.nodeCount == fs.nodeCount + if was.None? then 1 else 0)
      && (refused.Some? ==> after == fs)
  {
    if HasParent(fs, path) {
      var es := Walk(fs.root, DirName(path)).value.entries;
      var was := Get(es, BaseName(path));
      var c := if was.Some? && was.value.File? && append then Concat(was.value.content, content) else content;
      OneSet(fs.root, DirName(path), BaseName(path), File(c));
      AtPlace(WriteFile(z, fs, path, content, append).0.root, path, File(c));
    }
  }

  /** Why a write or a new directory is refused. */
  lemma {:induction false} PlaceRefused(z: Limits, fs: Fs, path: Path, content: Content, append: bool)
    ensures var w, d, up, was :=
        WriteFile(z, fs, path, content, append).1, Mkdir(z, fs, path).1, Walk(fs.root, DirName(path)),
            Standing(fs, path);
      && (up.Err? ==> w == Some(up.error) && d == Some(up.error))
      && (up.Ok? && up.value.File? ==> w == Some(ENOTDIR) && d == Some(ENOTDIR))
      && (was.Some? && was.value.Dir? ==> w == Some(EISDIR))
      && (was.Some? ==> d == Some(EEXIST))
      && (HasParent(fs, path) && (was.Some? ==> was.value.File?) && w.Some? ==> w == Some(EDQUOT))
      && (HasParent(fs, path) && was.None? && d.Some? ==> d == Some(EDQUOT))
  {}

  lemma {:induction false} AtPlace(after: Node, path: Path, node: Node)
    ensures Holds(after, Place(path), Some(node)) ==> Walk(after, Place(path)) == Ok(node)
  {
    if Holds(after, Place(path), Some(node)) {
      assert Place(path) + [] == Place(path);
      assert Walk(after, Place(path) + []) == Walk(node, []);
    }
  }

  // ------------------------------------------------------------------ making directories

  /** A new directory is empty, where nothing stood, and the only thing that is new. */
  lemma {:induction false} MkdirDecided(z: Limits, fs: Fs, path: Path)
    ensures var (after, refused) := Mkdir(z, fs, path);
      && (refused.None? <==>
            && HasParent(fs, path) && Standing(fs, path).None?
            && (z.maxBytes.Some? ==> fs.usedBytes <= z.maxBytes.value)
            && (z.maxNodes.Some? ==> fs.nodeCount + 1 <= z.maxNodes.value))
      && (refused.None? ==>
            Elsewhere(fs.root, after.root, Place(path)) && Holds(after.root, Place(path), Some(Dir(Nil))))
      && (refused == Some(EEXIST) <==> Standing(fs, path).Some?)
      && (refused.Some? ==> after == fs)
  {
    WalkErrors(fs.root, DirName(path));
    if HasParent(fs, path) { OneSet(fs.root, DirName(path), BaseName(path), Dir(Nil)); }
  }

  /** What was there is there still, and what is new are directories on the way to `path`. */
  ghost predicate OnlyDirsAdded(before: Node, after: Node, path: Path) {
    forall p: Path ::
      && (Walk(before, p).Ok? ==>
            Walk(after, p).Ok? && (Walk(before, p).value.File? ==> Walk(after, p) == Walk(before, p))
            && (Walk(before, p).value.Dir? ==> Walk(after, p).value.Dir?))
      && (Walk(after, p).Ok? && Walk(before, p).Err? ==> p <= path && Walk(after, p).value.Dir?)
  }

  lemma {:induction false} AddedOnce(n: Node, done: Path, name: Utf16.Text, path: Path)
    requires Walk(n, done).Ok? && Walk(n, done).value.Dir? && done + [name] <= path
    requires Get(Walk(n, done).value.entries, name).None?
    ensures OnlyDirsAdded(n, Graft(n, done, Dir(Set(Walk(n, done).value.entries, name, Dir(Nil)))), path)
  {
    var es, place := Walk(n, done).value.entries, done + [name];
    var after := Graft(n, done, Dir(Set(es, name, Dir(Nil))));
    OneSet(n, done, name, Dir(Nil));
    forall p: Path
      ensures && (Walk(n, p).Ok? ==>
            Walk(after, p).Ok? && (Walk(n, p).value.File? ==> Walk(after, p) == Walk(n, p))
            && (Walk(n, p).value.Dir? ==> Walk(after, p).value.Dir?))
        && (Walk(after, p).Ok? && Walk(n, p).Err? ==> p <= path && Walk(after, p).value.Dir?)
    {
      if place <= p {
        var more := p[|place|..];
        assert p == place + more && p == done + ([name] + more);
        WalkAppend(n, done, [name] + more);
        assert Walk(after, place + more) == Walk(Dir(Nil), more);
        assert more == [] ==> p == place;
      }
    }
  }

  lemma {:induction false} AddedTwice(a: Node, b: Node, c: Node, path: Path)
    requires OnlyDirsAdded(a, b, path) && OnlyDirsAdded(b, c, path)
    ensures OnlyDirsAdded(a, c, path)
  {
    forall p: Path
      ensures && (Walk(a, p).Ok? ==>
            Walk(c, p).Ok? && (Walk(a, p).value.File? ==> Walk(c, p) == Walk(a, p))
            && (Walk(a, p).value.Dir? ==> Walk(c, p).value.Dir?))
        && (Walk(c, p).Ok? && Walk(a, p).Err? ==> p <= path && Walk(c, p).value.Dir?)
    {
      assert Walk(b, p) == Walk(b, p);
    }
  }

  /** After `k` segments of the way there is a file. */
  predicate FileAfter(n: Node, done: Path, todo: Path, k: nat)
    requires k <= |todo|
  {
    Walk(n, done + todo[..k]).Ok? && Walk(n, done + todo[..k]).value.File?
  }

  lemma {:induction false} FileFurther(n: Node, done: Path, todo: Path, k: nat)
    requires k < |todo|
    ensures FileAfter(n, done + [todo[0]], todo[1..], k) <==> FileAfter(n, done, todo, k + 1)
  {
    assert done + [todo[0]] + todo[1..][..k] == done + todo[..k + 1];
  }

  /**
   * Making a whole path adds nothing but directories along it, also when it is given up half-way. It is given up with
   * ENOTDIR exactly when a file stands on the way, and else only when one more node is over a quota. Otherwise the
   * path leads somewhere afterwards.
   */
  lemma {:induction false} MakeAllDecided(z: Limits, fs: Fs, done: Path, todo: Path)
    requires Walk(fs.root, done).Ok?
    ensures var (after, refused) := MakeAll(z, fs, done, todo);
      && OnlyDirsAdded(fs.root, after.root, done + todo)
      && (refused.None? ==> Walk(after.root, done + todo).Ok?)
      && (refused == Some(ENOTDIR) <==> exists k: nat :: k < |todo| && FileAfter(fs.root, done, todo, k))
      && (refused.Some? && refused != Some(ENOTDIR) ==>
            && refused == Some(EDQUOT)
            && ((z.maxBytes.Some? && after.usedBytes > z.maxBytes.value)
                || (z.maxNodes.Some? && after.nodeCount + 1 > z.maxNodes.value)))
    decreases |todo|
  {
    if todo == [] {
      assert done + todo == done;
    } else {
      var here := Walk(fs.root, done).value;
      assert done + todo[..0] == done;
      assert done + [todo[0]] + todo[1..] == done + todo;
      assert FileAfter(fs.root, done, todo, 0) <==> here.File?;
      if here.Dir? && Get(here.entries, todo[0]).Some? {
        WalkFurther(fs.root, done, todo[0]);
        MakeAllDecided(z, fs, done + [todo[0]], todo[1..]);
        Blocked(fs.root, done, todo);
      } else if here.Dir? {
        NoFileBeyond(fs.root, done, todo);
        if Reserve(z, fs, 0, 1).Ok? {
          MadeOne(z, fs, done, todo[0]);
          AddedOnce(fs.root, done, todo[0], done + todo);
          var made := Reserve(z, fs, 0, 1).value.(
            root := Graft(fs.root, done, Dir(Set(here.entries, todo[0], Dir(Nil)))));
          MakeAllDecided(z, made, done + [todo[0]], todo[1..]);
          AddedTwice(fs.root, made.root, MakeAll(z, fs, done, todo).0.root, done + todo);
          NoFileInNew(fs.root, made.root, done, todo);
        }
      }
    }
  }

  /** Whether a file stands on the rest of the way, seen from one segment further. */
  lemma {:induction false} Blocked(n: Node, done: Path, todo: Path)
    requires todo != [] && !FileAfter(n, done, todo, 0)
    ensures (exists k: nat :: k < |todo[1..]| && FileAfter(n, done + [todo[0]], todo[1..], k))
      <==> (exists k: nat :: k < |todo| && FileAfter(n, done, todo, k))
  {
    if k: nat :| k < |todo[1..]| && FileAfter(n, done + [todo[0]], todo[1..], k) { FileFurther(n, done, todo, k); }
    if k: nat :| k < |todo| && FileAfter(n, done, todo, k) { FileFurther(n, done, todo, k - 1); }
  }

  /** Nothing stands beyond a name that is missing. */
  lemma {:induction false} NoFileBeyond(n: Node, done: Path, todo: Path)
    requires todo != [] && Walk(n, done).Ok? && Walk(n, done).value.Dir?
    requires Get(Walk(n, done).value.entries, todo[0]).None?
    ensures !exists k: nat :: k < |todo| && FileAfter(n, done, todo, k)
  {
    forall k: nat | k < |todo| ensures !FileAfter(n, done, todo, k) {
      WalkAppend(n, done, todo[..k]);
    }
  }

  lemma {:induction false} NoFileInNew(before: Node, after: Node, done: Path, todo: Path)
    requires todo != [] && Walk(before, done).Ok? && Walk(before, done).value.Dir?
    requires Get(Walk(before, done).value.entries, todo[0]).None? && OnlyDirsAdded(before, after, done + todo)
    ensures !exists k: nat :: k < |todo[1..]| && FileAfter(after, done + [todo[0]], todo[1..], k)
  {
    forall k: nat | k < |todo[1..]| ensures !FileAfter(after, done + [todo[0]], todo[1..], k) {
      FileFurther(after, done, todo, k);
      WalkAppend(before, done, todo[..k + 1]);
      assert Walk(before, done + todo[..k + 1]).Err?;
    }
  }

  // ------------------------------------------------------------------ moving

  /** Neither path leads through the other. */
  predicate Apart(a: Path, b: Path) { !(a <= b) && !(b <= a) }

  /** Where a move of `from` to `to` ends: in `to` if that is a directory. */
  function Destination(fs: Fs, from: Path, to: Path): Path
    requires from != []
  {
    if Walk(fs.root, to).Ok? && Walk(fs.root, to).value.Dir? then to + [from[|from| - 1]] else to
  }

  /**
   * What stood at `from`, with all that is below it, is found at `final`; nothing is found at `from`; every path
   * through neither reads as before.
   */
  ghost predicate HasMoved(before: Node, after: Node, from: Path, final: Path) {
    && Walk(before, from).Ok?
    && (forall more: Path :: Walk(after, final + more) == Walk(Walk(before, from).value, more))
    && (forall more: Path :: Walk(after, from + more) == Err(ENOENT))
    && (forall p: Path :: Apart(p, from) && Apart(p, final) ==> Walk(after, p) == Walk(before, p))
  }

  /** When a move is done, with nothing to do, refused and why; apart from its source it moves the node whole. */
  lemma {:induction false} MoveDecided(fs: Fs, from: Path, to: Path)
    requires from != [] && Distinct(fs.root)
    ensures var (after, refused) := Move(fs, from, to);
      var final := Destination(fs, from, to);
      && (Walk(fs.root, from).Err? ==> after == fs && refused == Some(Walk(fs.root, from).error))
      && (Walk(fs.root, from).Ok? ==>
            && (final == from ==> after == fs && refused.None?)
            && (from < final && Walk(fs.root, from).value.Dir? ==> after == fs && refused == Some(EINVAL))
            && (from < final && Walk(fs.root, from).value.File? ==> after == fs && refused == Some(ENOTDIR))
            && (Apart(from, final) && !HasParent(fs, final) ==> after == fs && refused.Some?)
            && (Apart(from, final) && HasParent(fs, final) ==>
                  refused.None? && HasMoved(fs.root, after.root, from, final)))
  {
    var final := Destination(fs, from, to);
    assert final == FinalPath(fs, from, to);
    if Walk(fs.root, from).Ok? && from < final && Walk(fs.root, from).value.File? {
      BelowFile(fs.root, from, final);
    }
    if Walk(fs.root, from).Ok? && Apart(from, final) && HasParent(fs, final) { MoveApart(fs, from, to); }
  }

  lemma {:induction false} BelowFile(n: Node, from: Path, final: Path)
    requires Walk(n, from).Ok? && Walk(n, from).value.File? && from < final
    ensures Walk(n, DirName(final)) == (if DirName(final) == from then Walk(n, from) else Err(ENOTDIR))
  {
    var more := DirName(final)[|from|..];
    assert DirName(final) == from + more;
    WalkAppend(n, from, more);
  }

  /** A node set at one place and then deleted at another, apart from it, has moved. */
  lemma {:induction false} SetThenDeleted(before: Node, placed: Node, end: Node, node: Node, from: Path, final: Path)
    requires Apart(from, final) && Walk(before, from) == Ok(node)
    requires Elsewhere(before, placed, final) && Holds(placed, final, Some(node))
    requires Elsewhere(placed, end, from) && Holds(end, from, None)
    ensures HasMoved(before, end, from, final)
  {
    forall more: Path ensures Walk(end, final + more) == Walk(node, more) {
      ApartFurther(final, from, more);
    }
    forall p: Path | Apart(p, from) && Apart(p, final) ensures Walk(end, p) == Walk(before, p) {
      assert Walk(placed, p) == Walk(before, p);
    }
  }

  lemma {:induction false} MoveApart(fs: Fs, from: Path, to: Path)
    requires from != [] && Distinct(fs.root) && Walk(fs.root, from).Ok?
    requires Apart(from, Destination(fs, from, to)) && HasParent(fs, Destination(fs, from, to))
    ensures Move(fs, from, to).1.None? && HasMoved(fs.root, Move(fs, from, to).0.root, from, Destination(fs, from, to))
  {
    var final, node := Destination(fs, from, to), Walk(fs.root, from).value;
    var f := PlacedApart(fs, from, final);
    WalkInit(f.root, from);
    var up, c := DirName(from), BaseName(from);
    var left := Walk(f.root, up).value.entries;
    var end := Graft(f.root, up, Dir(Delete(left, c)));
    assert up + [c] == from;
    hide Walk, Graft, Delete, Get, Elsewhere, Holds, Distinct, HasMoved, Placed, Move, BaseName, DirName;
    MoveIs(fs, from, to, f, left);
    OneDeleted(f.root, up, c);
    SetThenDeleted(fs.root, f.root, end, node, from, final);
  }

  lemma {:induction false} MoveIs(fs: Fs, from: Path, to: Path, f: Fs, left: Entries)
    requires from != [] && Walk(fs.root, from).Ok? && Apart(from, Destination(fs, from, to))
    requires HasParent(fs, Destination(fs, from, to))
    requires f == Placed(fs, Walk(fs.root, from).value, Destination(fs, from, to),
                         Walk(fs.root, DirName(Destination(fs, from, to))).value.entries)
    requires Walk(f.root, DirName(from)) == Ok(Dir(left))
    ensures Move(fs, from, to) == (f.(root := InParent(f, from, Delete(left, BaseName(from)))), None)
  {
    var final := Destination(fs, from, to);
    assert FinalPath(fs, from, to) == final && final != from && !Under(final, from);
    assert Parent(fs, final) == Walk(fs.root, DirName(final));
  }

  /** The first half of a move, and that the source is still where it was. */
  lemma {:induction false} PlacedApart(fs: Fs, from: Path, final: Path) returns (f: Fs)
    requires Distinct(fs.root) && Walk(fs.root, from).Ok? && Apart(from, final) && HasParent(fs, final)
    ensures f == Placed(fs, Walk(fs.root, from).value, final, Walk(fs.root, DirName(final)).value.entries)
    ensures Distinct(f.root) && Walk(f.root, from) == Walk(fs.root, from)
    ensures Elsewhere(fs.root, f.root, final) && Holds(f.root, final, Some(Walk(fs.root, from).value))
  {
    var node, above, b := Walk(fs.root, from).value, DirName(final), BaseName(final);
    var es := Walk(fs.root, above).value.entries;
    f := Placed(fs, node, final, es);
    assert above + [b] == final;
    OneSet(fs.root, above, b, node);
    WalkDistinct(fs.root, from);
    WalkDistinct(fs.root, above);
    SetDistinct(es, b, node);
    GraftDistinct(fs.root, above, Dir(Set(es, b, node)));
  }

  lemma {:induction false} PrefixOf(a: Path, more: Path, b: Path)
    requires a + more <= b
    ensures a <= b
  {}

  lemma {:induction false} PrefixEither(a: Path, more: Path, b: Path)
    requires b <= a + more
    ensures a <= b || b <= a
  {}

  lemma {:induction false} ApartFurther(a: Path, b: Path, more: Path)
    requires Apart(a, b)
    ensures Apart(a + more, b)
  {
    if a + more <= b { PrefixOf(a, more, b); }
    if b <= a + more { PrefixEither(a, more, b); }
  }

  // ------------------------------------------------------------------ every operation keeps names distinct

  /** What a snapshot may hold: names of one to 255 units without a slash, other than `.` and `..`, and 64 levels. */
  lemma {:induction false} SnapshotDecided(z: Limits, s: Snap, name: Utf16.Text, depth: nat, bytes: nat, nodes: nat)
    ensures GoodName(name) <==>
      0 < |name| <= 255 && name != ['.' as int] && name != ['.' as int, '.' as int] && '/' as int !in name
    ensures depth > 64 ==> Load(z, s, depth, bytes, nodes) == Err(EINVAL)
    ensures depth <= 64 && z.maxNodes.Some? && nodes + 1 > z.maxNodes.value ==>
        Load(z, s, depth, bytes, nodes) == Err(EDQUOT)
    ensures depth <= 64 && z.maxNodes.None? && s.SBad? ==> Load(z, s, depth, bytes, nodes) == Err(EINVAL)
    ensures depth <= 64 && z.maxNodes.None? && s.SFile? ==>
      Load(z, s, depth, bytes, nodes) ==
        if z.maxBytes.Some? && bytes + |BytesOf(s.content)| > z.maxBytes.value then Err(EDQUOT)
        else Ok(Loaded(File(s.content), bytes + |BytesOf(s.content)|, nodes + 1))
  {}

  lemma {:induction false} LoadDistinct(z: Limits, s: Snap, depth: nat, bytes: nat, nodes: nat)
    ensures Load(z, s, depth, bytes, nodes).Ok? ==> Distinct(Load(z, s, depth, bytes, nodes).value.node)
    decreases s
  {
    if s.SDir? && depth <= MAX_DEPTH && !Over(z.maxNodes, nodes + 1) {
      LoadEntriesDistinct(z, s.children, depth, Nil, bytes, nodes + 1);
    }
  }

  lemma {:induction false} LoadEntriesDistinct(z: Limits, ch: SEntries, depth: nat, sofar: Entries, bytes: nat,
      nodes: nat)
    requires DistinctIn(sofar)
    ensures var r := LoadEntries(z, ch, depth, sofar, bytes, nodes); r.Ok? ==> DistinctIn(r.value.entries)
    decreases ch
  {
    if ch.SEntry? && ch.name.Some? && GoodName(ch.name.value) && Get(sofar, ch.name.value).None? {
      LoadDistinct(z, ch.snap, depth + 1, bytes, nodes);
      var one := Load(z, ch.snap, depth + 1, bytes, nodes);
      if one.Ok? {
        SetDistinct(sofar, ch.name.value, one.value.node);
        LoadEntriesDistinct(z, ch.rest, depth, Set(sofar, ch.name.value, one.value.node), one.value.bytes,
            one.value.nodes);
      }
    }
  }

  lemma {:induction false} InParentDistinct(fs: Fs, path: Path, name: Utf16.Text, node: Node)
    requires Distinct(fs.root) && HasParent(fs, path) && Distinct(node)
    ensures var es := Walk(fs.root, DirName(path)).value.entries;
      Distinct(InParent(fs, path, Set(es, name, node))) && Distinct(InParent(fs, path, Delete(es, name)))
  {
    var es := Walk(fs.root, DirName(path)).value.entries;
    WalkDistinct(fs.root, DirName(path));
    SetDistinct(es, name, node);
    DeleteDistinct(es, name);
    GraftDistinct(fs.root, DirName(path), Dir(Set(es, name, node)));
    GraftDistinct(fs.root, DirName(path), Dir(Delete(es, name)));
  }

  lemma {:induction false} MakeAllDistinct(z: Limits, fs: Fs, done: Path, todo: Path)
    requires Walk(fs.root, done).Ok? && Distinct(fs.root)
    ensures Distinct(MakeAll(z, fs, done, todo).0.root)
    decreases |todo|
  {
    if todo != [] {
      var here := Walk(fs.root, done).value;
      if here.Dir? && Get(here.entries, todo[0]).Some? {
        WalkFurther(fs.root, done, todo[0]);
        MakeAllDistinct(z, fs, done + [todo[0]], todo[1..]);
      } else if here.Dir? && Reserve(z, fs, 0, 1).Ok? {
        MadeOne(z, fs, done, todo[0]);
        WalkDistinct(fs.root, done);
        SetDistinct(here.entries, todo[0], Dir(Nil));
        GraftDistinct(fs.root, done, Dir(Set(here.entries, todo[0], Dir(Nil))));
        var made := Reserve(z, fs, 0, 1).value.(root := Graft(fs.root, done,
            Dir(Set(here.entries, todo[0], Dir(Nil)))));
        MakeAllDistinct(z, made, done + [todo[0]], todo[1..]);
      }
    }
  }

  lemma {:induction false} MoveDistinct(fs: Fs, from: Path, to: Path)
    requires Distinct(fs.root)
    ensures Distinct(Move(fs, from, to).0.root)
  {
    if from != [] && Proceeds(fs, from, to) {
      var final, node := FinalPath(fs, from, to), Walk(fs.root, from).value;
      WalkDistinct(fs.root, from);
      InParentDistinct(fs, final, BaseName(final), node);
      var f := Placed(fs, node, final, Parent(fs, final).value.entries);
      if HasParent(f, from) { InParentDistinct(f, from, BaseName(from), Dir(Nil)); }
    }
  }

  /** Over every run of operations a directory has each name once. */
  lemma {:induction false} RunDistinct(z: Limits, fs: Fs, ops: seq<Op>)
    requires Distinct(fs.root)
    ensures Distinct(Run(z, fs, ops).root)
    decreases |ops|
  {
    if ops != [] {
      DoDistinct(z, fs, ops[0]);
      RunDistinct(z, Do(z, fs, ops[0]).0, ops[1..]);
    }
  }

  lemma {:induction false} DoDistinct(z: Limits, fs: Fs, op: Op)
    requires Distinct(fs.root)
    ensures Distinct(Do(z, fs, op).0.root)
  {
    match op
    case DoWrite(path, content, append) =>
      if HasParent(fs, path) {
        var was := Get(Walk(fs.root, DirName(path)).value.entries, BaseName(path));
        InParentDistinct(fs, path, BaseName(path), File(content));
        if was.Some? && was.value.File? {
          InParentDistinct(fs, path, BaseName(path), File(Concat(was.value.content, content)));
        }
      }
    case DoMkdir(path) => if HasParent(fs, path) { InParentDistinct(fs, path, BaseName(path), Dir(Nil)); }
    case DoMkdirAll(path) => MakeAllDistinct(z, fs, [], path);
    case DoRemove(path, recursive) =>
      if HasParent(fs, path) { InParentDistinct(fs, path, BaseName(path), Dir(Nil)); }
    case DoMove(from, to) => MoveDistinct(fs, from, to);
    case DoImport(snap) => LoadDistinct(z, snap, 0, 0, 0);
  }
}
