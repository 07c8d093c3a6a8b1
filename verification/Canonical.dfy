/** The serializer under hashes. */
module Canonical {
  // lib/common.js `canonical`, under the journal's hash and the comparison of receipts: equal texts for exactly the
  // values that are equal up to the order of the members of their objects.

  import opened Common
  import opened Utf16
  import opened JsonModel
  import opened JsonTheorems

  // ------------------------------------------------------------------ the order of keys

  /** Unit by unit, as `sort()` compares strings. */
  predicate Less(a: Text, b: Text) {
    b != [] && (a == [] || a[0] < b[0] || (a[0] == b[0] && Less(a[1..], b[1..])))
  }

  lemma {:induction false} LessTotal(a: Text, b: Text)
    ensures Less(a, b) || Less(b, a) || a == b
    decreases |a|
  {
    if a != [] && b != [] {
      LessTotal(a[1..], b[1..]);
      assert a == [a[0]] + a[1..] && b == [b[0]] + b[1..];
    }
  }

  lemma {:induction false} LessStrict(a: Text, b: Text)
    requires Less(a, b)
    ensures !Less(b, a) && a != b
    decreases |a|
  {
    if a != [] && a[0] == b[0] { LessStrict(a[1..], b[1..]); }
  }

  lemma {:induction false} LessTransitive(a: Text, b: Text, c: Text)
    requires Less(a, b) && Less(b, c)
    ensures Less(a, c)
    decreases |a|
  {
    if a != [] && a[0] == b[0] == c[0] { LessTransitive(a[1..], b[1..], c[1..]); }
  }

  // ------------------------------------------------------------------ sorting

  function Insert(k: Text, v: Json, fs: Fields): Fields {
    if fs.FNil? || Less(k, fs.key) then FCons(k, v, fs) else FCons(fs.key, fs.value, Insert(k, v, fs.rest))
  }

  /** A value with the members of every object in the order of their keys. */
  function Sorted(v: Json): Json {
    match v
    case Arr(xs) => Arr(SortedItems(xs))
    case Obj(fs) => Obj(SortedFields(fs))
    case _ => v
  }

  function SortedItems(xs: Items): Items {
    match xs case INil => INil case ICons(v, rest) => ICons(Sorted(v), SortedItems(rest))
  }

  function SortedFields(fs: Fields): Fields {
    match fs case FNil => FNil case FCons(k, v, rest) => Insert(k, Sorted(v), SortedFields(rest))
  }

  predicate Ascending(fs: Fields) {
    fs.FCons? && fs.rest.FCons? ==> Less(fs.key, fs.rest.key) && Ascending(fs.rest)
  }

  // ------------------------------------------------------------------ the serializer

  const PROTO: Text := [0x5F, 0x5F, 0x70, 0x72, 0x6F, 0x74, 0x6F, 0x5F, 0x5F]
  const PROTOTYPE: Text := [0x70, 0x72, 0x6F, 0x74, 0x6F, 0x74, 0x79, 0x70, 0x65]
  const CONSTRUCTOR: Text := [0x63, 0x6F, 0x6E, 0x73, 0x74, 0x72, 0x75, 0x63, 0x74, 0x6F, 0x72]

  /** Some object of the value has a key that is refused. */
  predicate Refused(v: Json) {
    match v case Arr(xs) => RefusedItems(xs) case Obj(fs) => RefusedFields(fs) case _ => false
  }

  predicate RefusedItems(xs: Items) { xs.ICons? && (Refused(xs.head) || RefusedItems(xs.tail)) }

  predicate RefusedFields(fs: Fields) {
    fs.FCons? && (fs.key == PROTO || fs.key == PROTOTYPE || fs.key == CONSTRUCTOR || Refused(fs.value)
        || RefusedFields(fs.rest))
  }

  function Canon(v: Json): Option<Text> { if Refused(v) then None else Some(Print(Sorted(v))) }

  // ------------------------------------------------------------------ equality up to order

  /** Equal but for the order of members. */
  ghost predicate Similar(v: Json, w: Json)
    decreases v, 0
  {
    match v
    case Arr(xs) => w.Arr? && SimilarItems(xs, w.items)
    case Obj(fs) => w.Obj? && (forall k :: HasKey(w.fields, k) ==> HasKey(fs, k)) && Among(fs, w.fields)
    case _ => v == w
  }

  ghost predicate SimilarItems(xs: Items, ys: Items)
    decreases xs, 0
  {
    match xs
    case INil => ys == INil
    case ICons(v, rest) => ys.ICons? && Similar(v, ys.head) && SimilarItems(rest, ys.tail)
  }

  /** Every member of the one is, up to order, a member of the other. */
  ghost predicate Among(fs: Fields, gs: Fields)
    decreases fs, 0
  {
    fs.FCons? ==> HasKey(gs, fs.key) && Similar(fs.value, Lookup(gs, fs.key)) && Among(fs.rest, gs)
  }

  // ------------------------------------------------------------------ what sorting keeps

  lemma {:induction false} InsertLooks(k: Text, v: Json, fs: Fields, j: Text)
    requires !HasKey(fs, k)
    ensures HasKey(Insert(k, v, fs), j) <==> j == k || HasKey(fs, j)
    ensures HasKey(Insert(k, v, fs), j) ==> Lookup(Insert(k, v, fs), j) == if j == k then v else Lookup(fs, j)
    decreases fs
  {
    if fs.FCons? && !Less(k, fs.key) { InsertLooks(k, v, fs.rest, j); }
  }

  lemma {:induction false} InsertAscends(k: Text, v: Json, fs: Fields)
    requires Ascending(fs) && !HasKey(fs, k)
    ensures Ascending(Insert(k, v, fs)) && Insert(k, v, fs).FCons?
    ensures Insert(k, v, fs).key == k || (fs.FCons? && Insert(k, v, fs).key == fs.key)
    decreases fs
  {
    if fs.FCons? && !Less(k, fs.key) {
      LessTotal(k, fs.key);
      InsertAscends(k, v, fs.rest);
    }
  }

  lemma {:induction false} SortedLooks(fs: Fields, j: Text)
    requires DistinctFields(fs)
    ensures HasKey(SortedFields(fs), j) <==> HasKey(fs, j)
    ensures HasKey(fs, j) ==> Lookup(SortedFields(fs), j) == Sorted(Lookup(fs, j))
    decreases fs
  {
    if fs.FCons? {
      SortedLooks(fs.rest, fs.key);
      SortedLooks(fs.rest, j);
      InsertLooks(fs.key, Sorted(fs.value), SortedFields(fs.rest), j);
    }
  }

  lemma {:induction false} SortedAscends(fs: Fields)
    requires DistinctFields(fs)
    ensures Ascending(SortedFields(fs))
    decreases fs
  {
    if fs.FCons? {
      SortedAscends(fs.rest);
      SortedLooks(fs.rest, fs.key);
      InsertAscends(fs.key, Sorted(fs.value), SortedFields(fs.rest));
    }
  }

  /** The first key of an ascending list is below every other. */
  lemma {:induction false} HeadIsLeast(fs: Fields, k: Text)
    requires Ascending(fs) && fs.FCons? && HasKey(fs.rest, k)
    ensures Less(fs.key, k)
    decreases fs
  {
    if fs.rest.key != k {
      HeadIsLeast(fs.rest, k);
      LessTransitive(fs.key, fs.rest.key, k);
    }
  }

  ghost predicate SameAt(fs: Fields, gs: Fields, k: Text) {
    (HasKey(fs, k) <==> HasKey(gs, k)) && (HasKey(fs, k) && HasKey(gs, k) ==> Lookup(fs, k) == Lookup(gs, k))
  }

  /** Ascending lists with the same members are the same list. */
  lemma {:induction false} AscendingUnique(fs: Fields, gs: Fields)
    requires Ascending(fs) && Ascending(gs) && forall k :: SameAt(fs, gs, k)
    ensures fs == gs
    decreases fs
  {
    assert gs.FCons? ==> SameAt(fs, gs, gs.key);
    if fs.FCons? {
      assert SameAt(fs, gs, fs.key);
      assert SameAt(fs, gs, gs.key);
      if fs.key != gs.key {
        HeadIsLeast(fs, gs.key);
        HeadIsLeast(gs, fs.key);
        LessStrict(fs.key, gs.key);
      }
      forall k ensures SameAt(fs.rest, gs.rest, k) {
        assert SameAt(fs, gs, k);
        NotInRest(fs, k);
        NotInRest(gs, k);
      }
      AscendingUnique(fs.rest, gs.rest);
    }
  }

  lemma {:induction false} NotInRest(fs: Fields, k: Text)
    requires Ascending(fs) && fs.FCons?
    ensures HasKey(fs.rest, k) ==> k != fs.key
  {
    if HasKey(fs.rest, k) {
      HeadIsLeast(fs, k);
      LessStrict(fs.key, k);
    }
  }

  // ------------------------------------------------------------------ similar values sort alike

  lemma {:induction false} SimilarSorts(v: Json, w: Json)
    requires Distinct(v) && Distinct(w) && Similar(v, w)
    ensures Sorted(v) == Sorted(w)
    decreases v, 1
  {
    match v
    case Arr(xs) => SimilarItemsSort(xs, w.items);
    case Obj(fs) =>
      var gs := w.fields;
      forall k ensures SameAt(SortedFields(fs), SortedFields(gs), k) {
        SortedLooks(fs, k);
        SortedLooks(gs, k);
        if HasKey(fs, k) {
          AmongLooks(fs, gs, k);
          LookupDistinct(fs, k);
          LookupDistinct(gs, k);
          LookupSmaller(fs, k);
          SimilarSorts(Lookup(fs, k), Lookup(gs, k));
        }
      }
      SortedAscends(fs);
      SortedAscends(gs);
      AscendingUnique(SortedFields(fs), SortedFields(gs));
    case _ =>
  }

  lemma {:induction false} SimilarItemsSort(xs: Items, ys: Items)
    requires DistinctItems(xs) && DistinctItems(ys) && SimilarItems(xs, ys)
    ensures SortedItems(xs) == SortedItems(ys)
    decreases xs, 1
  {
    if xs.ICons? {
      SimilarSorts(xs.head, ys.head);
      SimilarItemsSort(xs.tail, ys.tail);
    }
  }

  lemma {:induction false} AmongLooks(fs: Fields, gs: Fields, k: Text)
    requires Among(fs, gs) && HasKey(fs, k)
    ensures HasKey(gs, k) && Similar(Lookup(fs, k), Lookup(gs, k))
    decreases fs
  {
    if fs.key != k { AmongLooks(fs.rest, gs, k); }
  }

  lemma {:induction false} LookupSmaller(fs: Fields, k: Text)
    requires HasKey(fs, k)
    ensures Lookup(fs, k) < fs
    decreases fs
  {
    if fs.key != k { LookupSmaller(fs.rest, k); }
  }

  // ------------------------------------------------------------------ values that sort alike are similar

  lemma {:induction false} SortsSimilar(v: Json, w: Json)
    requires Distinct(v) && Distinct(w) && Sorted(v) == Sorted(w)
    ensures Similar(v, w)
    decreases v, 1
  {
    match v
    case Arr(xs) => SortsSimilarItems(xs, w.items);
    case Obj(fs) =>
      var gs := w.fields;
      forall k | HasKey(gs, k) ensures HasKey(fs, k) {
        SortedLooks(fs, k);
        SortedLooks(gs, k);
      }
      SortsAmong(fs, fs, gs);
    case _ =>
  }

  lemma {:induction false} SortsSimilarItems(xs: Items, ys: Items)
    requires DistinctItems(xs) && DistinctItems(ys) && SortedItems(xs) == SortedItems(ys)
    ensures SimilarItems(xs, ys)
    decreases xs, 1
  {
    if xs.ICons? {
      SortsSimilar(xs.head, ys.head);
      SortsSimilarItems(xs.tail, ys.tail);
    }
  }

  /** A tail of a member list: its members are found in the whole. */
  predicate Part(part: Fields, fs: Fields) {
    part.FCons? ==> HasKey(fs, part.key) && Lookup(fs, part.key) == part.value && Part(part.rest, fs)
  }

  lemma {:induction false} PartOfLonger(part: Fields, k: Text, v: Json, fs: Fields)
    requires Part(part, fs) && !HasKey(part, k)
    ensures Part(part, FCons(k, v, fs))
    decreases part
  {
    if part.FCons? { PartOfLonger(part.rest, k, v, fs); }
  }

  lemma {:induction false} PartOfSelf(fs: Fields)
    requires DistinctFields(fs)
    ensures Part(fs, fs)
    decreases fs
  {
    if fs.FCons? {
      PartOfSelf(fs.rest);
      PartOfLonger(fs.rest, fs.key, fs.value, fs.rest);
    }
  }

  lemma {:induction false} SortsAmong(part: Fields, fs: Fields, gs: Fields)
    requires DistinctFields(fs) && DistinctFields(gs) && SortedFields(fs) == SortedFields(gs)
    requires DistinctFields(part) && (part == fs || Part(part, fs))
    ensures Among(part, gs)
    decreases part, 2
  {
    if part == fs { PartOfSelf(fs); }
    if part.FCons? {
      var k := part.key;
      SortedLooks(fs, k);
      SortedLooks(gs, k);
      LookupDistinct(gs, k);
      SortsSimilar(part.value, Lookup(gs, k));
      SortsAmong(part.rest, fs, gs);
    }
  }

  // ------------------------------------------------------------------ injectivity

  lemma {:induction false} InsertGood(z: Rules, k: Text, v: Json, fs: Fields)
    requires Good(z, v) && GoodFields(z, fs) && !HasKey(fs, k)
    ensures GoodFields(z, Insert(k, v, fs))
    decreases fs
  {
    if fs.FCons? && !Less(k, fs.key) {
      InsertGood(z, k, v, fs.rest);
      InsertLooks(k, v, fs.rest, fs.key);
    }
  }

  lemma {:induction false} GoodDistinct(z: Rules, v: Json)
    requires Good(z, v)
    ensures Distinct(v)
    decreases v
  {
    match v
    case Arr(xs) => GoodItemsDistinct(z, xs);
    case Obj(fs) => GoodFieldsDistinct(z, fs);
    case _ =>
  }

  lemma {:induction false} GoodItemsDistinct(z: Rules, xs: Items)
    requires GoodItems(z, xs)
    ensures DistinctItems(xs)
    decreases xs
  {
    if xs.ICons? {
      GoodDistinct(z, xs.head);
      GoodItemsDistinct(z, xs.tail);
    }
  }

  lemma {:induction false} GoodFieldsDistinct(z: Rules, fs: Fields)
    requires GoodFields(z, fs)
    ensures DistinctFields(fs)
    decreases fs
  {
    if fs.FCons? {
      GoodDistinct(z, fs.value);
      GoodFieldsDistinct(z, fs.rest);
    }
  }

  lemma {:induction false} SortedGood(z: Rules, v: Json)
    requires Good(z, v)
    ensures Good(z, Sorted(v))
    decreases v
  {
    match v
    case Arr(xs) => SortedItemsGood(z, xs);
    case Obj(fs) => SortedFieldsGood(z, fs);
    case _ =>
  }

  lemma {:induction false} SortedItemsGood(z: Rules, xs: Items)
    requires GoodItems(z, xs)
    ensures GoodItems(z, SortedItems(xs))
    decreases xs
  {
    if xs.ICons? {
      SortedGood(z, xs.head);
      SortedItemsGood(z, xs.tail);
    }
  }

  lemma {:induction false} SortedFieldsGood(z: Rules, fs: Fields)
    requires GoodFields(z, fs)
    ensures GoodFields(z, SortedFields(fs))
    decreases fs
  {
    if fs.FCons? {
      SortedGood(z, fs.value);
      SortedFieldsGood(z, fs.rest);
      GoodFieldsDistinct(z, fs.rest);
      SortedLooks(fs.rest, fs.key);
      InsertGood(z, fs.key, Sorted(fs.value), SortedFields(fs.rest));
    }
  }

  // ------------------------------------------------------------------ numbers that have no text

  lemma {:induction false} InsertNulled(k: Text, v: Json, fs: Fields)
    ensures NulledFields(Insert(k, v, fs)) == Insert(k, Nulled(v), NulledFields(fs))
    decreases fs
  {
    if fs.FCons? && !Less(k, fs.key) { InsertNulled(k, v, fs.rest); }
  }

  lemma {:induction false} SortedNulled(v: Json)
    ensures Sorted(Nulled(v)) == Nulled(Sorted(v))
    decreases v
  {
    match v
    case Arr(xs) => SortedItemsNulled(xs);
    case Obj(fs) => SortedFieldsNulled(fs);
    case _ =>
  }

  lemma {:induction false} SortedItemsNulled(xs: Items)
    ensures SortedItems(NulledItems(xs)) == NulledItems(SortedItems(xs))
    decreases xs
  {
    if xs.ICons? {
      SortedNulled(xs.head);
      SortedItemsNulled(xs.tail);
    }
  }

  lemma {:induction false} SortedFieldsNulled(fs: Fields)
    ensures SortedFields(NulledFields(fs)) == NulledFields(SortedFields(fs))
    decreases fs
  {
    if fs.FCons? {
      SortedNulled(fs.value);
      SortedFieldsNulled(fs.rest);
      InsertNulled(fs.key, Sorted(fs.value), SortedFields(fs.rest));
    }
  }

  lemma {:induction false} RefusedNulled(v: Json)
    ensures Refused(Nulled(v)) <==> Refused(v)
    decreases v
  {
    match v
    case Arr(xs) => RefusedItemsNulled(xs);
    case Obj(fs) => RefusedFieldsNulled(fs);
    case _ =>
  }

  lemma {:induction false} RefusedItemsNulled(xs: Items)
    ensures RefusedItems(NulledItems(xs)) <==> RefusedItems(xs)
    decreases xs
  {
    if xs.ICons? {
      RefusedNulled(xs.head);
      RefusedItemsNulled(xs.tail);
    }
  }

  lemma {:induction false} RefusedFieldsNulled(fs: Fields)
    ensures RefusedFields(NulledFields(fs)) <==> RefusedFields(fs)
    decreases fs
  {
    if fs.FCons? {
      RefusedNulled(fs.value);
      RefusedFieldsNulled(fs.rest);
    }
  }

  /** The serializer does not see which number is not finite, nor that it is one. */
  lemma {:induction false} CanonNulled(v: Json)
    ensures Canon(Nulled(v)) == Canon(v)
  {
    RefusedNulled(v);
    SortedNulled(v);
    PrintNulled(Sorted(v));
  }

  /** Equal but for the order of members, with `null` for every number that is not finite. */
  ghost predicate Alike(v: Json, w: Json) { Similar(Nulled(v), Nulled(w)) }

  /** Somewhere a number that is not finite stands against something else. */
  ghost predicate Clash(v: Json, w: Json)
    decreases v, 0
  {
    match v
    case Arr(xs) => w.Arr? && ClashItems(xs, w.items)
    case Obj(fs) => w.Obj? && ClashFields(fs, w.fields)
    case _ => v != w && (v.NotFinite? || w.NotFinite?)
  }

  ghost predicate ClashItems(xs: Items, ys: Items)
    decreases xs, 0
  {
    xs.ICons? && ys.ICons? && (Clash(xs.head, ys.head) || ClashItems(xs.tail, ys.tail))
  }

  ghost predicate ClashFields(fs: Fields, gs: Fields)
    decreases fs, 0
  {
    fs.FCons? && ((HasKey(gs, fs.key) && Clash(fs.value, Lookup(gs, fs.key))) || ClashFields(fs.rest, gs))
  }

  /** What the serializer does not tell apart is equal up to order exactly when there is no such place. */
  lemma {:induction false} AlikeIsSimilar(v: Json, w: Json)
    requires Alike(v, w)
    ensures Similar(v, w) <==> !Clash(v, w)
    decreases v
  {
    match v
    case Arr(xs) => AlikeItems(xs, w.items);
    case Obj(fs) =>
      forall k ensures HasKey(w.fields, k) ==> HasKey(fs, k) {
        NulledKeys(w.fields, k);
        NulledKeys(fs, k);
      }
      AlikeFields(fs, w.fields);
    case _ =>
  }

  lemma {:induction false} AlikeItems(xs: Items, ys: Items)
    requires SimilarItems(NulledItems(xs), NulledItems(ys))
    ensures SimilarItems(xs, ys) <==> !ClashItems(xs, ys)
    decreases xs
  {
    if xs.ICons? {
      AlikeIsSimilar(xs.head, ys.head);
      AlikeItems(xs.tail, ys.tail);
    }
  }

  lemma {:induction false} AlikeFields(fs: Fields, gs: Fields)
    requires Among(NulledFields(fs), NulledFields(gs))
    ensures Among(fs, gs) <==> !ClashFields(fs, gs)
    decreases fs
  {
    if fs.FCons? {
      NulledKeys(gs, fs.key);
      AlikeIsSimilar(fs.value, Lookup(gs, fs.key));
      AlikeFields(fs.rest, gs);
    }
  }

  /** The serializer tells apart exactly what differs by more than the order of members and numbers without a text. */
  lemma {:induction false} CanonicalIff(z: Rules, v: Json, w: Json)
    requires Sound(z, v) && Sound(z, w) && !Refused(v) && !Refused(w)
    ensures Canon(v) == Canon(w) <==> Alike(v, w)
  {
    CanonNulled(v);
    CanonNulled(w);
    RefusedNulled(v);
    RefusedNulled(w);
    GoodIff(z, Nulled(v), Nulled(w));
  }

  lemma {:induction false} GoodIff(z: Rules, v: Json, w: Json)
    requires Good(z, v) && Good(z, w) && !Refused(v) && !Refused(w)
    ensures Canon(v) == Canon(w) <==> Similar(v, w)
  {
    GoodDistinct(z, v);
    GoodDistinct(z, w);
    if Canon(v) == Canon(w) {
      SortedGood(z, v);
      SortedGood(z, w);
      PrintInjective(z, Sorted(v), Sorted(w));
      SortsSimilar(v, w);
    }
    if Similar(v, w) { SimilarSorts(v, w); }
  }
}
