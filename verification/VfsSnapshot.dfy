/** Runs and snapshots of the tree. */
module VfsSnapshot {
  // A detached tree is validated, and an export is restored exactly when names and depth allow.

  import opened Common
  import Utf16
  import opened VfsModel
  import opened VfsSafety

  /** A node record; `SBad` is anything that is not one. A name that is not a string is absent. */
  datatype Snap = SFile(content: Content) | SDir(children: SEntries) | SBad

  datatype SEntries = SNil | SEntry(name: Option<Utf16.Text>, snap: Snap, rest: SEntries)

  const MAX_DEPTH: nat := 64
  const SLASH: Utf16.Unit := 47
  const DOT: Utf16.Unit := 46

  predicate GoodName(name: Utf16.Text) {
    name != [] && name != [DOT] && name != [DOT, DOT] && SLASH !in name && |name| <= 255
  }

  datatype Loaded = Loaded(node: Node, bytes: nat, nodes: nat)

  datatype LoadedEntries = LoadedEntries(entries: Entries, bytes: nat, nodes: nat)

  /** `dec`: the totals are checked as they grow. */
  function Load(z: Limits, s: Snap, depth: nat, bytes: nat, nodes: nat): Result<Loaded, Error>
    decreases s
  {
    if depth > MAX_DEPTH then Err(EINVAL)
    else if Over(z.maxNodes, nodes + 1) then Err(EDQUOT)
    else
      match s
      case SBad => Err(EINVAL)
      case SFile(c) =>
        if Over(z.maxBytes, bytes + ContentBytes(c)) then Err(EDQUOT)
        else Ok(Loaded(File(c), bytes + ContentBytes(c), nodes + 1))
      case SDir(ch) =>
        match LoadEntries(z, ch, depth, Nil, bytes, nodes + 1)
        case Err(e) => Err(e)
        case Ok(l) => Ok(Loaded(Dir(l.entries), l.bytes, l.nodes))
  }

  function LoadEntries(z: Limits, ch: SEntries, depth: nat, sofar: Entries, bytes: nat, nodes: nat)
      : Result<LoadedEntries, Error>
    decreases ch
  {
    match ch
    case SNil => Ok(LoadedEntries(sofar, bytes, nodes))
    case SEntry(name, s, rest) =>
      if name.None? || !GoodName(name.value) || Get(sofar, name.value).Some? then Err(EINVAL)
      else
        match Load(z, s, depth + 1, bytes, nodes)
        case Err(e) => Err(e)
        case Ok(l) => LoadEntries(z, rest, depth, Set(sofar, name.value, l.node), l.bytes, l.nodes)
  }

  /** Never partially applied. */
  function Import(z: Limits, fs: Fs, s: Snap): (Fs, Option<Error>) {
    if !s.SDir? then (fs, Some(EINVAL))
    else
      match Load(z, s, 0, 0, 0)
      case Err(e) => (fs, Some(e))
      case Ok(l) => (Fs(l.node, l.bytes, l.nodes), None)
  }

  function Export(n: Node): Snap {
    match n case File(c) => SFile(c) case Dir(es) => SDir(ExportEntries(es))
  }

  function ExportEntries(es: Entries): SEntries {
    match es case Nil => SNil case Entry(m, n, rest) => SEntry(Some(m), Export(n), ExportEntries(rest))
  }

  // ------------------------------------------------------------------ what an import leaves

  lemma {:induction false} LoadCosts(z: Limits, s: Snap, depth: nat, bytes: nat, nodes: nat)
    requires !Over(z.maxBytes, bytes)
    ensures Load(z, s, depth, bytes, nodes).Ok? ==>
      var l := Load(z, s, depth, bytes, nodes).value;
      && l.bytes == bytes + NodeBytes(l.node) && l.nodes == nodes + NodeCount(l.node)
      && !Over(z.maxBytes, l.bytes) && !Over(z.maxNodes, l.nodes)
    decreases s
  {
    if s.SDir? && depth <= MAX_DEPTH && !Over(z.maxNodes, nodes + 1) {
      LoadEntriesCost(z, s.children, depth, Nil, bytes, nodes + 1);
    }
  }

  lemma {:induction false} LoadEntriesCost(z: Limits, ch: SEntries, depth: nat, sofar: Entries, bytes: nat, nodes: nat)
    requires !Over(z.maxBytes, bytes) && !Over(z.maxNodes, nodes)
    ensures LoadEntries(z, ch, depth, sofar, bytes, nodes).Ok? ==>
      var l := LoadEntries(z, ch, depth, sofar, bytes, nodes).value;
      && l.bytes + EntryBytes(sofar) == bytes + EntryBytes(l.entries)
      && l.nodes + EntryCount(sofar) == nodes + EntryCount(l.entries)
      && !Over(z.maxBytes, l.bytes) && !Over(z.maxNodes, l.nodes)
    decreases ch
  {
    if ch.SEntry? && ch.name.Some? && GoodName(ch.name.value) && Get(sofar, ch.name.value).None? {
      LoadCosts(z, ch.snap, depth + 1, bytes, nodes);
      var one := Load(z, ch.snap, depth + 1, bytes, nodes);
      if one.Ok? {
        SetCost(sofar, ch.name.value, one.value.node);
        LoadEntriesCost(z, ch.rest, depth, Set(sofar, ch.name.value, one.value.node), one.value.bytes, one.value.nodes);
      }
    }
  }

  /** A refused import changes nothing; an accepted one leaves exact totals within the quotas, whatever it was given. */
  lemma {:induction false} ImportExact(z: Limits, fs: Fs, s: Snap)
    ensures var (next, refused) := Import(z, fs, s);
      if refused.Some? then next == fs else Exact(next) && WithinQuota(z, next)
  {
    LoadCosts(z, s, 0, 0, 0);
  }

  // ------------------------------------------------------------------ restoring an export

  predicate Has(es: Entries, name: Utf16.Text) { Get(es, name).Some? }

  predicate NodeOk(n: Node, depth: nat)
    decreases n
  {
    depth <= MAX_DEPTH && (n.Dir? ==> EntriesOk(n.entries, depth))
  }

  /** Names a snapshot may hold, no name twice, and nothing deeper than the bound. */
  predicate EntriesOk(es: Entries, depth: nat)
    decreases es
  {
    es.Entry? ==> GoodName(es.name) && !Has(es.rest, es.name) && NodeOk(es.node, depth + 1) && EntriesOk(es.rest, depth)
  }

  function Append(a: Entries, b: Entries): Entries {
    match a case Nil => b case Entry(m, n, rest) => Entry(m, n, Append(rest, b))
  }

  lemma {:induction false} SetNew(es: Entries, name: Utf16.Text, node: Node, more: Entries)
    requires !Has(es, name)
    ensures Append(Set(es, name, node), more) == Append(es, Entry(name, node, more))
    decreases es
  {
    match es
    case Nil => assert Set(es, name, node) == Entry(name, node, Nil);
    case Entry(m, n, rest) => SetNew(rest, name, node, more);
  }

  /** Some entry of the rest has a name that is already taken. */
  predicate Clashes(es: Entries, rest: Entries) {
    match rest case Nil => false case Entry(m, _, more) => Has(es, m) || Clashes(es, more)
  }

  lemma {:induction false} ClashesSet(es: Entries, name: Utf16.Text, node: Node, rest: Entries)
    ensures Clashes(Set(es, name, node), rest) <==> Clashes(es, rest) || Has(rest, name)
    decreases rest
  {
    match rest
    case Nil =>
    case Entry(m, n, more) =>
      GetSet(es, name, node, m);
      ClashesSet(es, name, node, more);
  }

  predicate Room(z: Limits, bytes: int, nodes: int) { !Over(z.maxBytes, bytes) && !Over(z.maxNodes, nodes) }

  /** Exactly which exports load, and what they load to. */
  lemma {:induction false} LoadExport(z: Limits, n: Node, depth: nat, bytes: nat, nodes: nat)
    requires Room(z, bytes, nodes)
    ensures Load(z, Export(n), depth, bytes, nodes).Ok? <==>
      NodeOk(n, depth) && Room(z, bytes + NodeBytes(n), nodes + NodeCount(n))
    ensures Load(z, Export(n), depth, bytes, nodes).Ok? ==> Load(z, Export(n), depth, bytes, nodes).value.node == n
    decreases n
  {
    LoadCosts(z, Export(n), depth, bytes, nodes);
    if n.Dir? && !Over(z.maxNodes, nodes + 1) {
      LoadExportEntries(z, n.entries, depth, Nil, bytes, nodes + 1);
      ClashesNil(n.entries);
    }
  }

  lemma {:induction false} ClashesNil(rest: Entries)
    ensures !Clashes(Nil, rest)
    decreases rest
  {
    if rest.Entry? { ClashesNil(rest.rest); }
  }

  lemma {:induction false} LoadExportEntries(z: Limits, es: Entries, depth: nat, sofar: Entries, bytes: nat, nodes: nat)
    requires Room(z, bytes, nodes)
    ensures var r := LoadEntries(z, ExportEntries(es), depth, sofar, bytes, nodes);
      && (r.Ok? <==>
            EntriesOk(es, depth) && !Clashes(sofar, es) && Room(z, bytes + EntryBytes(es), nodes + EntryCount(es)))
      && (r.Ok? ==> r.value.entries == Append(sofar, es))
    decreases es
  {
    match es
    case Nil => AppendNil(sofar);
    case Entry(m, n, rest) =>
      LoadExport(z, n, depth + 1, bytes, nodes);
      LoadCosts(z, Export(n), depth + 1, bytes, nodes);
      var one := Load(z, Export(n), depth + 1, bytes, nodes);
      if GoodName(m) && !Has(sofar, m) && one.Ok? {
        var next := Set(sofar, m, n);
        LoadExportEntries(z, rest, depth, next, one.value.bytes, one.value.nodes);
        ClashesSet(sofar, m, n, rest);
        SetNew(sofar, m, n, rest);
      }
  }

  lemma {:induction false} AppendNil(a: Entries)
    ensures Append(a, Nil) == a
    decreases a
  {
    if a.Entry? { AppendNil(a.rest); }
  }

  /** Importing an export restores the tree if and only if its names and its depth are those a snapshot may have. */
  lemma {:induction false} ExportImport(z: Limits, fs: Fs, other: Fs)
    requires fs.root.Dir? && Room(z, NodeBytes(fs.root), NodeCount(fs.root))
    ensures Import(z, other, Export(fs.root)).1 == None <==> NodeOk(fs.root, 0)
    ensures NodeOk(fs.root, 0) ==>
      Import(z, other, Export(fs.root)).0 == Fs(fs.root, NodeBytes(fs.root), NodeCount(fs.root))
  {
    assert Room(z, 0, 0);
    LoadExport(z, fs.root, 0, 0, 0);
    LoadCosts(z, Export(fs.root), 0, 0, 0);
  }

  // ------------------------------------------------------------------ whole runs

  datatype Op =
    | DoWrite(path: Path, content: Content, append: bool)
    | DoMkdir(path: Path)
    | DoMkdirAll(path: Path)
    | DoRemove(path: Path, recursive: bool)
    | DoMove(from: Path, to: Path)
    | DoImport(snap: Snap)

  function Do(z: Limits, fs: Fs, op: Op): (Fs, Option<Error>) {
    match op
    case DoWrite(path, content, append) => WriteFile(z, fs, path, content, append)
    case DoMkdir(path) => Mkdir(z, fs, path)
    case DoMkdirAll(path) => MkdirAll(z, fs, path)
    case DoRemove(path, recursive) => Remove(fs, path, recursive)
    case DoMove(from, to) => Move(fs, from, to)
    case DoImport(snap) => Import(z, fs, snap)
  }

  function Run(z: Limits, fs: Fs, ops: seq<Op>): Fs
    decreases |ops|
  {
    if ops == [] then fs else Run(z, Do(z, fs, ops[0]).0, ops[1..])
  }

  /** A move of the root, or one that replaces an ancestor of its source. */
  predicate BadMove(fs: Fs, op: Op) {
    op.DoMove? && (Move(fs, op.from, op.to).1 == Some(Cyclic)
        || (op.from != [] && ReplacesAncestor(fs, op.from, op.to)))
  }

  predicate Sane(z: Limits, fs: Fs, ops: seq<Op>)
    decreases |ops|
  {
    ops == [] || (!BadMove(fs, ops[0]) && Sane(z, Do(z, fs, ops[0]).0, ops[1..]))
  }

  /** Bytes counted twice: two for every character an append has joined since the last import. */
  function Doubled(z: Limits, fs: Fs, op: Op, before: nat): nat {
    if op.DoImport? && Do(z, fs, op).1 == None then 0
    else if op.DoWrite? && Do(z, fs, op).1 == None && Splits(fs, op.path, op.content, op.append) then before + 2
    else before
  }

  function AllDoubled(z: Limits, fs: Fs, ops: seq<Op>, before: nat): nat
    decreases |ops|
  {
    if ops == [] then before else AllDoubled(z, Do(z, fs, ops[0]).0, ops[1..], Doubled(z, fs, ops[0], before))
  }

  lemma {:induction false} DoAccounts(z: Limits, fs: Fs, op: Op, before: nat)
    requires WithinQuota(z, fs) && !BadMove(fs, op)
    requires ByteDrift(fs) == before && NodeDrift(fs) == 0
    ensures var next := Do(z, fs, op).0;
      WithinQuota(z, next) && ByteDrift(next) == Doubled(z, fs, op, before) && NodeDrift(next) == 0
  {
    match op
    case DoWrite(path, content, append) => WriteDrifts(z, fs, path, content, append);
    case DoMkdir(path) => MkdirDrifts(z, fs, path);
    case DoMkdirAll(path) => MakeAllDrifts(z, fs, [], path);
    case DoRemove(path, recursive) => RemoveDrifts(z, fs, path, recursive);
    case DoMove(from, to) =>
      MoveKeepsQuota(z, fs, from, to);
      if from == [] { MoveOfRoot(fs, to); } else { MoveExactIff(fs, from, to); }
    case DoImport(snap) => ImportExact(z, fs, snap);
  }

  /**
   * Over any run without a bad move: the node count is exact, the byte count is exact but for two bytes for each
   * character joined by an append, and the tree itself never exceeds a quota.
   */
  lemma {:induction false} RunAccounts(z: Limits, fs: Fs, ops: seq<Op>, before: nat)
    requires WithinQuota(z, fs) && Sane(z, fs, ops) && ByteDrift(fs) == before && NodeDrift(fs) == 0
    ensures var end := Run(z, fs, ops);
      && end.nodeCount == NodeCount(end.root)
      && end.usedBytes == NodeBytes(end.root) + AllDoubled(z, fs, ops, before)
      && Room(z, NodeBytes(end.root), NodeCount(end.root))
    decreases |ops|
  {
    if ops != [] {
      DoAccounts(z, fs, ops[0], before);
      RunAccounts(z, Do(z, fs, ops[0]).0, ops[1..], Doubled(z, fs, ops[0], before));
    }
  }

  predicate AllRaw(ops: seq<Op>) {
    ops == [] || ((ops[0].DoWrite? ==> ops[0].content.Buf? || !ops[0].append) && AllRaw(ops[1..]))
  }

  /** Without text appends the totals are the recursive cost of the tree after every operation. */
  lemma {:induction false} RunExact(z: Limits, fs: Fs, ops: seq<Op>)
    requires WithinQuota(z, fs) && Exact(fs) && Sane(z, fs, ops) && AllRaw(ops)
    ensures Exact(Run(z, fs, ops)) && WithinQuota(z, Run(z, fs, ops))
    decreases |ops|
  {
    if ops != [] {
      DoAccounts(z, fs, ops[0], 0);
      RunExact(z, Do(z, fs, ops[0]).0, ops[1..]);
    }
  }
}
