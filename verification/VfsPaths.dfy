/** The path engine of the virtual file system. */
module VfsPaths {
  // runtime/hermit/src/main/spiral/vfs.js: what a resolved path looks like, and that it is one.

  import opened Utf16
  import opened Splitting

  const SLASH: Unit := 47
  const DOT: Unit := 46

  /** The segments between separators, the empty ones left out. */
  function Segments(s: Text): seq<Text> { Split(s, SLASH) }

  function Join(parts: seq<Text>): Text {
    if parts == [] then [] else if |parts| == 1 then parts[0] else parts[0] + [SLASH] + Join(parts[1..])
  }

  function Absolute(parts: seq<Text>): Text { [SLASH] + Join(parts) }

  /** The loop of `resolvePath`: `.` stays, `..` goes up and stops at the root. */
  function Apply(parts: seq<Text>, segs: seq<Text>): seq<Text>
    decreases |segs|
  {
    if segs == [] then parts
    else if segs[0] == [DOT] then Apply(parts, segs[1..])
    else if segs[0] == [DOT, DOT] then Apply(if parts == [] then [] else parts[..|parts| - 1], segs[1..])
    else Apply(parts + [segs[0]], segs[1..])
  }

  function Resolve(cwd: Text, input: Text): Text {
    var start := if input != [] && input[0] == SLASH then [] else Segments(cwd);
    Absolute(Apply(start, Segments(input)))
  }

  predicate Segment(s: Text) { s != [] && SLASH !in s }

  predicate Plain(s: Text) { Segment(s) && s != [DOT] && s != [DOT, DOT] }

  predicate AllSegments(parts: seq<Text>) { forall p :: p in parts ==> Segment(p) }

  predicate AllPlain(parts: seq<Text>) { forall p :: p in parts ==> Plain(p) }

  /** Segments joined are found again. */
  lemma {:induction false} SplitJoined(parts: seq<Text>)
    requires AllSegments(parts)
    ensures Segments(Join(parts)) == parts
    decreases |parts|
  {
    if parts != [] {
      var p, rest := parts[0], parts[1..];
      assert p in parts && AllSegments(rest);
      if rest == [] {
        SplitLast(p, SLASH);
      } else {
        SplitPart(p, Join(rest), SLASH);
        SplitJoined(rest);
      }
    }
  }

  lemma {:induction false} SplitAbsolute(parts: seq<Text>)
    requires AllSegments(parts)
    ensures Segments(Absolute(parts)) == parts
  {
    var s := Absolute(parts);
    assert Index(s, SLASH) == 0 && s[1..] == Join(parts);
    SplitJoined(parts);
    assert [] + parts == parts;
  }

  lemma {:induction false} ApplyPlain(parts: seq<Text>, segs: seq<Text>)
    requires AllPlain(parts) && AllSegments(segs)
    ensures AllPlain(Apply(parts, segs))
    decreases |segs|
  {
    if segs != [] {
      assert segs[0] in segs;
      ApplyPlain(if segs[0] == [DOT] then parts
                 else if segs[0] == [DOT, DOT] then (if parts == [] then [] else parts[..|parts| - 1])
                 else parts + [segs[0]], segs[1..]);
    }
  }

  lemma {:induction false} ApplyAppends(parts: seq<Text>, segs: seq<Text>)
    requires AllPlain(segs)
    ensures Apply(parts, segs) == parts + segs
    decreases |segs|
  {
    if segs == [] {
      assert parts + segs == parts;
    } else {
      assert segs[0] in segs;
      ApplyAppends(parts + [segs[0]], segs[1..]);
      assert parts + [segs[0]] + segs[1..] == parts + segs;
    }
  }

  /** A resolved path has no empty, `.` or `..` segment, so it never leads above the root. */
  lemma {:induction false} ResolvedIsPlain(cwd: Text, input: Text)
    requires AllPlain(Segments(cwd))
    ensures AllPlain(Segments(Resolve(cwd, input)))
  {
    SplitParts(input, SLASH);
    var start := if input != [] && input[0] == SLASH then [] else Segments(cwd);
    ApplyPlain(start, Segments(input));
    SplitAbsolute(Apply(start, Segments(input)));
  }

  /** Resolving what is resolved changes nothing, from any directory. */
  lemma {:induction false} ResolveTwice(cwd: Text, input: Text, elsewhere: Text)
    requires AllPlain(Segments(cwd))
    ensures Resolve(elsewhere, Resolve(cwd, input)) == Resolve(cwd, input)
  {
    SplitParts(input, SLASH);
    var start := if input != [] && input[0] == SLASH then [] else Segments(cwd);
    var parts := Apply(start, Segments(input));
    ApplyPlain(start, Segments(input));
    SplitAbsolute(parts);
    ApplyAppends([], parts);
    assert [] + parts == parts;
  }

  lemma {:induction false} ApplyFurther(parts: seq<Text>, a: seq<Text>, b: seq<Text>)
    ensures Apply(parts, a + b) == Apply(Apply(parts, a), b)
    decreases |a|
  {
    if a == [] {
      assert a + b == b;
    } else {
      assert (a + b)[0] == a[0] && (a + b)[1..] == a[1..] + b;
      ApplyFurther(if a[0] == [DOT] then parts
                   else if a[0] == [DOT, DOT] then (if parts == [] then [] else parts[..|parts| - 1])
                   else parts + [a[0]], a[1..], b);
    }
  }

  /** One more segment behind a path that is not empty, whatever it means. */
  lemma {:induction false} OneFurther(cwd: Text, input: Text, seg: Text)
    requires AllPlain(Segments(cwd)) && input != [] && Segment(seg)
    ensures Segments(Resolve(cwd, input + [SLASH] + seg)) == Apply(Segments(Resolve(cwd, input)), [seg])
  {
    var next := input + [SLASH] + seg;
    var start := if input[0] == SLASH then [] else Segments(cwd);
    SplitParts(input, SLASH);
    SplitBoth(input, seg, SLASH);
    ApplyFurther(start, Segments(input), [seg]);
    ApplyPlain(start, Segments(input));
    SplitAbsolute(Apply(start, Segments(input)));
    assert forall s :: s in Segments(next) ==> s in Segments(input) || s == seg;
    ApplyPlain(start, Segments(next));
    SplitAbsolute(Apply(start, Segments(next)));
  }

  /**
   * Behind any path `..` is the directory above what the path resolves to, and the root above the root; `.` is that
   * place itself; a name is an entry of it.
   */
  lemma {:induction false} StepDecided(cwd: Text, input: Text, name: Text)
    requires AllPlain(Segments(cwd)) && input != [] && Plain(name)
    ensures var here := Segments(Resolve(cwd, input));
      && Segments(Resolve(cwd, input + [SLASH] + [DOT, DOT])) == (if here == [] then [] else here[..|here| - 1])
      && Segments(Resolve(cwd, input + [SLASH] + [DOT])) == here
      && Segments(Resolve(cwd, input + [SLASH] + name)) == here + [name]
  {
    OneFurther(cwd, input, [DOT, DOT]);
    OneFurther(cwd, input, [DOT]);
    OneFurther(cwd, input, name);
    assert [name][1..] == [] && [[DOT]][1..] == [] && [[DOT, DOT]][1..] == [];
  }

  /** A path that begins with the separator starts at the root, any other in the working directory. */
  lemma {:induction false} StartDecided(cwd: Text, name: Text)
    requires AllPlain(Segments(cwd)) && Plain(name)
    ensures Segments(Resolve(cwd, [])) == Segments(cwd) && Segments(Resolve(cwd, [SLASH])) == []
    ensures Segments(Resolve(cwd, name)) == Segments(cwd) + [name]
    ensures Segments(Resolve(cwd, [SLASH] + name)) == [name]
  {
    var here := Segments(cwd);
    SplitPart([], [], SLASH);
    SplitPart([], name, SLASH);
    SplitLast(name, SLASH);
    assert [] + [SLASH] + [] == [SLASH] && [] + [SLASH] + name == [SLASH] + name && Split([], SLASH) == [];
    ApplyAppends(here, [name]);
    ApplyAppends([], [name]);
    SplitAbsolute(here);
    SplitAbsolute([]);
    SplitAbsolute(here + [name]);
    SplitAbsolute([name]);
  }
}
