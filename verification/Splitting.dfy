/** Splitting a text at a separator, with empty parts left out. */
module Splitting {
  import opened Utf16

  function Index(s: Text, sep: Unit): (i: nat)
    ensures i <= |s| && sep !in s[..i] && (i < |s| ==> s[i] == sep)
  {
    if s == [] || s[0] == sep then 0
    else
      var i := 1 + Index(s[1..], sep);
      assert s[..i] == [s[0]] + s[1..][..i - 1];
      i
  }

  function Split(s: Text, sep: Unit): seq<Text>
    decreases |s|
  {
    if s == [] then []
    else
      var i := Index(s, sep);
      var rest := if i < |s| then s[i + 1..] else [];
      (if i == 0 then [] else [s[..i]]) + Split(rest, sep)
  }

  lemma {:induction false} IndexAfter(p: Text, rest: Text, sep: Unit)
    requires sep !in p
    ensures Index(p + rest, sep) == |p| + Index(rest, sep)
    decreases |p|
  {
    if p == [] {
      assert p + rest == rest;
    } else {
      assert (p + rest)[1..] == p[1..] + rest;
      IndexAfter(p[1..], rest, sep);
    }
  }

  function Whole(p: Text): seq<Text> { if p == [] then [] else [p] }

  /** A part, its separator, and what follows. */
  lemma {:induction false} SplitPart(p: Text, rest: Text, sep: Unit)
    requires sep !in p
    ensures Split(p + [sep] + rest, sep) == Whole(p) + Split(rest, sep)
  {
    var s := p + [sep] + rest;
    assert s == p + ([sep] + rest);
    IndexAfter(p, [sep] + rest, sep);
    assert s[..|p|] == p && s[|p| + 1..] == rest;
  }

  lemma {:induction false} SplitLast(p: Text, sep: Unit)
    requires sep !in p && p != []
    ensures Split(p, sep) == [p]
  {
    IndexAfter(p, [], sep);
    assert p + [] == p && p[..|p|] == p && Split([], sep) == [];
  }

  lemma {:induction false} FirstPart(s: Text, sep: Unit) returns (pre: Text, rest: Text)
    requires s != [] && s[|s| - 1] == sep
    ensures s == pre + [sep] + rest && sep !in pre && (rest == [] || rest[|rest| - 1] == sep)
  {
    var i := Index(s, sep);
    assert s[..|s|] == s && s[|s| - 1] in s;
    pre, rest := s[..i], s[i + 1..];
  }

  lemma {:induction false} AcrossPart(pre: Text, rest: Text, tail: Text, sep: Unit)
    requires sep !in pre && Split(rest + tail, sep) == Split(rest, sep) + Split(tail, sep)
    ensures Split(pre + [sep] + rest + tail, sep) == Split(pre + [sep] + rest, sep) + Split(tail, sep)
  {
    hide Split, Index;
    assert pre + [sep] + rest + tail == pre + [sep] + (rest + tail);
    SplitPart(pre, rest, sep);
    SplitPart(pre, rest + tail, sep);
    assert Whole(pre) + (Split(rest, sep) + Split(tail, sep)) == Whole(pre) + Split(rest, sep) + Split(tail, sep);
  }

  /** Behind a separator a text is split on its own. */
  lemma {:induction false} SplitAcross(s: Text, tail: Text, sep: Unit)
    requires s == [] || s[|s| - 1] == sep
    ensures Split(s + tail, sep) == Split(s, sep) + Split(tail, sep)
    decreases |s|
  {
    if s == [] {
      assert s + tail == tail;
    } else {
      var pre, rest := FirstPart(s, sep);
      SplitAcross(rest, tail, sep);
      AcrossPart(pre, rest, tail, sep);
    }
  }

  /** A text that ends with the separator, and one more part behind it. */
  lemma {:induction false} SplitAppend(s: Text, part: Text, sep: Unit)
    requires s == [] || s[|s| - 1] == sep
    requires sep !in part && part != []
    ensures Split(s + (part + [sep]), sep) == Split(s, sep) + [part]
  {
    SplitAcross(s, part + [sep], sep);
    SplitPart(part, [], sep);
    assert part + [sep] + [] == part + [sep] && Split([], sep) == [];
  }

  lemma {:induction false} ClosedPart(p: Text, sep: Unit)
    requires sep !in p
    ensures Split(p + [sep], sep) == Split(p, sep)
  {
    SplitPart(p, [], sep);
    assert p + [sep] + [] == p + [sep] && Split([], sep) == [];
    if p != [] { SplitLast(p, sep); }
  }

  lemma {:induction false} ClosedRest(pre: Text, rest: Text, sep: Unit)
    requires sep !in pre && Split(rest + [sep], sep) == Split(rest, sep)
    ensures Split(pre + [sep] + rest + [sep], sep) == Split(pre + [sep] + rest, sep)
  {
    hide Split, Index;
    SplitPart(pre, rest, sep);
    SplitPart(pre, rest + [sep], sep);
    assert pre + [sep] + rest + [sep] == pre + [sep] + (rest + [sep]);
  }

  lemma {:induction false} Taken(s: Text, i: nat)
    requires i <= |s|
    ensures i == |s| ==> s[..i] == s
    ensures i < |s| ==> s == s[..i] + [s[i]] + s[i + 1..]
  {}

  /** A separator at the end adds no part. */
  lemma {:induction false} SplitClosed(s: Text, sep: Unit)
    ensures Split(s + [sep], sep) == Split(s, sep)
    decreases |s|
  {
    var i := Index(s, sep);
    Taken(s, i);
    hide Split, Index;
    if i == |s| {
      ClosedPart(s, sep);
    } else {
      SplitClosed(s[i + 1..], sep);
      ClosedRest(s[..i], s[i + 1..], sep);
    }
  }

  /** Parts on both sides of a separator. */
  lemma {:induction false} SplitBoth(s: Text, part: Text, sep: Unit)
    requires sep !in part && part != []
    ensures Split(s + [sep] + part, sep) == Split(s, sep) + [part]
  {
    SplitAcross(s + [sep], part, sep);
    SplitClosed(s, sep);
    SplitLast(part, sep);
  }

  lemma {:induction false} SplitParts(s: Text, sep: Unit)
    ensures forall p :: p in Split(s, sep) ==> p != [] && sep !in p
    decreases |s|
  {
    if s != [] {
      var i := Index(s, sep);
      SplitParts(if i < |s| then s[i + 1..] else [], sep);
    }
  }
}
