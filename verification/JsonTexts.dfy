/** What `diffJson` returns, read as text: which path each returned item spells, what it says about the two
    documents there, in which order the items come, and patching with them. */
module JsonTexts {
  import opened Content
  import opened JsonDiff
  import opened JsonDiffTheorems

  // ---- Numerals ----

  predicate AllDigits(t: Text) { forall i :: 0 <= i < |t| ==> 0x30 <= t[i] <= 0x39 }

  /** The number that a text of digits names. */
  function ValueOfDigits(t: Text): nat
    requires AllDigits(t)
  {
    if t == [] then 0
    else
      var digit: int := t[|t| - 1];
      ValueOfDigits(t[..|t| - 1]) * 10 + digit - 0x30
  }

  /** Digits, without a leading zero unless it is the only one. */
  predicate IsNumeral(t: Text) { t != [] && AllDigits(t) && (|t| > 1 ==> t[0] != 0x30) }

  lemma {:induction false} DecimalReadsBack(n: nat)
    ensures IsNumeral(Decimal(n)) && ValueOfDigits(Decimal(n)) == n && (n > 0 ==> Decimal(n)[0] != 0x30)
  {
    if n >= 10 {
      DecimalReadsBack(n / 10);
      var high := Decimal(n / 10);
      assert Decimal(n)[..|high|] == high;
    }
  }

  lemma {:induction false} NumeralIsDecimal(t: Text)
    requires IsNumeral(t)
    ensures Decimal(ValueOfDigits(t)) == t && (t[0] != 0x30 ==> ValueOfDigits(t) > 0)
    decreases |t|
  {
    var high := t[..|t| - 1];
    assert t == high + [t[|t| - 1]];
    if |t| > 1 {
      NumeralIsDecimal(high);
      assert ValueOfDigits(t) / 10 == ValueOfDigits(high);
    }
  }

  // ---- Reading a path ----

  /** An array position: '[', a numeral, ']'. */
  predicate IsPosition(t: Text) {
    |t| >= 3 && t[0] == 0x5B && t[|t| - 1] == 0x5D && IsNumeral(t[1..|t| - 1])
  }

  /** A step of a path: '.' and the key, or the array position. */
  predicate ReadsAsStep(t: Text, s: Seg) {
    match s
    case Key(k) => t == [0x2E] + k
    case Index(i) => IsPosition(t) && ValueOfDigits(t[1..|t| - 1]) == i
  }

  ghost predicate Reads(t: Text, path: Path)
    decreases |path|
  {
    if path == [] then t == []
    else exists n :: 0 <= n <= |t| && ReadsAsStep(t[..n], path[0]) && Reads(t[n..], path[1..])
  }

  lemma StepReadsExactly(t: Text, s: Seg)
    ensures ReadsAsStep(t, s) <==> t == RenderSeg(s)
  {
    match s {
      case Key(k) =>
      case Index(i) =>
        DecimalReadsBack(i);
        assert RenderSeg(s)[1..|RenderSeg(s)| - 1] == Decimal(i);
        if IsPosition(t) {
          NumeralIsDecimal(t[1..|t| - 1]);
          assert t == [0x5B] + t[1..|t| - 1] + [0x5D];
        }
    }
  }

  /** The text of a path is the one that reads as it. */
  lemma {:induction false} ReadsExactly(t: Text, path: Path)
    ensures Reads(t, path) <==> t == Render(path)
    decreases |path|
  {
    hide ReadsAsStep, RenderSeg;
    if path != [] {
      if Reads(t, path) {
        var n :| 0 <= n <= |t| && ReadsAsStep(t[..n], path[0]) && Reads(t[n..], path[1..]);
        StepReadsExactly(t[..n], path[0]);
        ReadsExactly(t[n..], path[1..]);
        assert t == t[..n] + t[n..];
      }
      if t == Render(path) {
        var n := |RenderSeg(path[0])|;
        assert t[..n] == RenderSeg(path[0]) && t[n..] == Render(path[1..]);
        StepReadsExactly(t[..n], path[0]);
        ReadsExactly(t[n..], path[1..]);
      }
    }
  }

  /** What it is for a key to be plain: it holds no '.' and does not end in an array position. */
  lemma PlainMeans(k: Text)
    ensures IsPlain(k) <==> 0x2E !in k && forall n :: 0 <= n <= |k| ==> !IsPosition(k[n..])
  {
    forall n | 0 <= n <= |k| && IsPosition(k[n..]) ensures EndsInIndex(k) {
      var i := ValueOfDigits(k[n..][1..|k[n..]| - 1]);
      assert ReadsAsStep(k[n..], Index(i));
      StepReadsExactly(k[n..], Index(i));
      assert k == k[..n] + RenderSeg(Index(i));
    }
    if EndsInIndex(k) {
      var l: Text, i: nat :| k == l + RenderSeg(Index(i));
      assert k[|l|..] == RenderSeg(Index(i));
      StepReadsExactly(k[|l|..], Index(i));
    }
  }

  // ---- What an item says ----

  /** The value at a path of a document. */
  function At(v: Json, path: Path): Option<Json>
    decreases |path|
  {
    if path == [] then Some(v)
    else
      match path[0]
      case Index(i) => if v.Arr? && i < |v.items| then At(v.items[i], path[1..]) else None
      case Key(k) => if v.Obj? && k in v.fields then At(v.fields[k], path[1..]) else None
  }

  /** At the path, the item's values are those of the two documents; one that was added or removed is there
      in one document only, and one that changed is not an array or an object in both. */
  ghost predicate IsTrueAt(item: Item, a: Json, b: Json, p: Path) {
    match item
    case Added(_, y) => At(a, p) == None && At(b, p) == Some(y)
    case Removed(_, x) => At(a, p) == Some(x) && At(b, p) == None
    case Changed(_, x, y) =>
      && At(a, p) == Some(x) && At(b, p) == Some(y) && x != y
      && !(x.Arr? && y.Arr?) && !(x.Obj? && y.Obj?)
  }

  lemma TrueBelow(item: Item, s: Seg, a: Json, b: Json, x: Json, y: Json)
    requires At(a, [s]) == Some(x) && At(b, [s]) == Some(y) && IsTrueAt(item, x, y, item.path)
    ensures IsTrueAt(item, a, b, [s] + item.path)
  {
    assert ([s] + item.path)[1..] == item.path && [s][1..] == [];
  }

  ghost predicate AllTrue(items: seq<Item>, a: Json, b: Json) {
    forall item :: item in items ==> IsTrueAt(item, a, b, item.path)
  }

  /** Every item of the specification is true of the two documents. */
  lemma {:induction false} ItemsAreTrue(a: Json, b: Json)
    ensures AllTrue(Diff(a, b), a, b)
    decreases a, 1, 0
  {
    if a.Arr? && b.Arr? {
      TrueByIndex(a, b, Longer(a.items, b.items));
    } else if a.Obj? && b.Obj? {
      TrueByKey(a, b, Sorted(a.fields.Keys + b.fields.Keys));
    }
  }

  lemma {:induction false} TrueByIndex(a: Json, b: Json, n: nat)
    requires a.Arr? && b.Arr? && n <= Longer(a.items, b.items)
    ensures AllTrue(DiffItems(a, b, n), a, b)
    decreases a, 0, n
  {
    hide Diff, IsTrueAt;
    if n > 0 {
      var i := n - 1;
      TrueByIndex(a, b, i);
      if i < |a.items| && i < |b.items| {
        ItemsAreTrue(a.items[i], b.items[i]);
        AllTrueBelow(Diff(a.items[i], b.items[i]), Index(i), a, b, a.items[i], b.items[i]);
      } else {
        OneSided(Index(i), a, b, AtIndex(a, b, i));
      }
      AllTrueOfBoth(DiffItems(a, b, i), Below(Index(i), AtIndex(a, b, i)), a, b);
    }
  }

  lemma {:induction false} TrueByKey(a: Json, b: Json, keys: seq<Text>)
    requires a.Obj? && b.Obj? && forall k :: k in keys ==> k in a.fields || k in b.fields
    ensures AllTrue(DiffKeys(a, b, keys), a, b)
    decreases a, 0, |keys|
  {
    hide Diff, IsTrueAt;
    if keys != [] {
      var k := keys[|keys| - 1];
      TrueByKey(a, b, keys[..|keys| - 1]);
      if k in a.fields && k in b.fields {
        ItemsAreTrue(a.fields[k], b.fields[k]);
        AllTrueBelow(Diff(a.fields[k], b.fields[k]), Key(k), a, b, a.fields[k], b.fields[k]);
      } else {
        OneSided(Key(k), a, b, AtKey(a, b, k));
      }
      AllTrueOfBoth(DiffKeys(a, b, keys[..|keys| - 1]), Below(Key(k), AtKey(a, b, k)), a, b);
    }
  }

  lemma AllTrueOfBoth(xs: seq<Item>, ys: seq<Item>, a: Json, b: Json)
    requires AllTrue(xs, a, b) && AllTrue(ys, a, b)
    ensures AllTrue(xs + ys, a, b)
  {
  }

  lemma AllTrueBelow(items: seq<Item>, s: Seg, a: Json, b: Json, x: Json, y: Json)
    requires At(a, [s]) == Some(x) && At(b, [s]) == Some(y) && AllTrue(items, x, y)
    ensures AllTrue(Below(s, items), a, b)
  {
    hide IsTrueAt;
    forall item | item in Below(s, items) ensures IsTrueAt(item, a, b, item.path) {
      var i :| 0 <= i < |items| && Below(s, items)[i] == item;
      assert items[i] in items;
      TrueBelow(items[i], s, a, b, x, y);
      SameKind(items[i], s, a, b);
    }
  }

  lemma SameKind(item: Item, s: Seg, a: Json, b: Json)
    requires IsTrueAt(item, a, b, [s] + item.path)
    ensures var below := item.(path := [s] + item.path); IsTrueAt(below, a, b, below.path)
  {
  }

  lemma OneSided(s: Seg, a: Json, b: Json, items: seq<Item>)
    requires || (exists y :: At(a, [s]) == None && At(b, [s]) == Some(y) && items == [Added([], y)])
             || (exists x :: At(a, [s]) == Some(x) && At(b, [s]) == None && items == [Removed([], x)])
    ensures AllTrue(Below(s, items), a, b)
  {
    assert [s] + [] == [s];
  }

  /** The returned item spells the path, after the base. */
  ghost predicate Spells(t: TextItem, base: Text, p: Path) {
    |base| <= |t.path| && t.path[..|base|] == base && Reads(t.path[|base|..], p)
  }

  /** What a returned item says, at the path that it spells. */
  ghost predicate Tells(t: TextItem, a: Json, b: Json, p: Path) {
    match t
    case TextAdded(_, y) => At(a, p) == None && At(b, p) == Some(y)
    case TextRemoved(_, x) => At(a, p) == Some(x) && At(b, p) == None
    case TextChanged(_, x, y) =>
      && At(a, p) == Some(x) && At(b, p) == Some(y) && x != y
      && !(x.Arr? && y.Arr?) && !(x.Obj? && y.Obj?)
  }

  /** Main theorem: every item that `diffJson` returns spells a path at which it tells the truth about the
      two documents. */
  lemma ReturnedItemsTell(a: Json, b: Json, base: Text, i: nat) returns (p: Path)
    requires i < |Diff(a, b)|
    ensures var t := RenderAll(base, Diff(a, b))[i]; Spells(t, base, p) && Tells(t, a, b, p)
  {
    hide Diff, Render, Reads, At;
    var item := Diff(a, b)[i];
    p := item.path;
    assert item in Diff(a, b);
    ItemsAreTrue(a, b);
    assert IsTrueAt(item, a, b, p);
    SpelledPath(base, item);
  }

  lemma SpelledPath(base: Text, item: Item)
    ensures Spells(RenderItem(base, item), base, item.path)
  {
    ReadsExactly(Render(item.path), item.path);
    hide Render, Reads;
  }

  // ---- Patching with what is returned ----

  /** One way to read a returned item: the same kind and values, at a path with plain keys that it spells. */
  ghost predicate IsReading(t: TextItem, base: Text, item: Item) {
    && Spells(t, base, item.path) && PlainPath(item.path)
    && match t
       case TextAdded(_, y) => item.Added? && item.b == y
       case TextRemoved(_, x) => item.Removed? && item.a == x
       case TextChanged(_, x, y) => item.Changed? && item.a == x && item.b == y
  }

  lemma ReadingIsUnique(t: TextItem, base: Text, x: Item, y: Item)
    requires IsReading(t, base, x) && IsReading(t, base, y)
    ensures x == y
  {
    ReadsExactly(t.path[|base|..], x.path);
    ReadsExactly(t.path[|base|..], y.path);
    hide Reads, Render;
    RenderIsInjective(x.path, y.path);
  }

  /** Main theorem: when the keys of both documents are plain, the returned items can be read in exactly one
      way, and patching the first document with what was read gives the second. */
  lemma PatchedWithTexts(a: Json, b: Json, base: Text, items: seq<Item>)
    requires PlainKeys(a) && PlainKeys(b) && |items| == |Diff(a, b)|
    ensures var out := RenderAll(base, Diff(a, b));
            && (forall i :: 0 <= i < |out| ==> IsReading(out[i], base, Diff(a, b)[i]))
            && ((forall i :: 0 <= i < |out| ==> IsReading(out[i], base, items[i])) ==> Patch(Some(a), items) == Some(b))
  {
    hide Diff, Patch, Reads, Render;
    var expected, out := Diff(a, b), RenderAll(base, Diff(a, b));
    PathsArePlain(a, b);
    RoundTrip(a, b);
    forall i | 0 <= i < |out| ensures IsReading(out[i], base, expected[i]) {
      assert expected[i] in expected;
      SpelledPath(base, expected[i]);
    }
    if forall i :: 0 <= i < |out| ==> IsReading(out[i], base, items[i]) {
      forall i | 0 <= i < |out| ensures items[i] == expected[i] {
        ReadingIsUnique(out[i], base, items[i], expected[i]);
      }
      assert items == expected;
    }
  }

  // ---- The order of the items ----

  /** Code unit by code unit, a prefix first. */
  ghost predicate Precedes(s: Text, t: Text) {
    exists n :: 0 <= n <= |s| && n < |t| && s[..n] == t[..n] && (n == |s| || s[n] < t[n])
  }

  lemma {:induction false} LeMeans(s: Text, t: Text)
    requires Le(s, t) && s != t
    ensures Precedes(s, t)
    decreases |s|
  {
    if s == [] || s[0] < t[0] {
      assert s[..0] == t[..0];
    } else {
      assert s == [s[0]] + s[1..] && t == [t[0]] + t[1..];
      LeMeans(s[1..], t[1..]);
      var u, v := s[1..], t[1..];
      var n :| 0 <= n <= |u| && n < |v| && u[..n] == v[..n] && (n == |u| || u[n] < v[n]);
      assert s[..n + 1] == [s[0]] + u[..n] && t[..n + 1] == [t[0]] + v[..n];
    }
  }

  ghost predicate StepPrecedes(s: Seg, t: Seg) {
    (s.Index? && t.Index? && s.i < t.i) || (s.Key? && t.Key? && Precedes(s.k, t.k))
  }

  /** The paths part at a step where the first one takes the lower position or the preceding key. */
  ghost predicate PathPrecedes(p: Path, q: Path) {
    exists n :: 0 <= n < |p| && n < |q| && p[..n] == q[..n] && StepPrecedes(p[n], q[n])
  }

  ghost predicate Ascend(items: seq<Item>) {
    forall i, j :: 0 <= i < j < |items| ==> PathPrecedes(items[i].path, items[j].path)
  }

  lemma PrecedesBelow(s: Seg, p: Path, q: Path)
    requires PathPrecedes(p, q)
    ensures PathPrecedes([s] + p, [s] + q)
  {
    var n :| 0 <= n < |p| && n < |q| && p[..n] == q[..n] && StepPrecedes(p[n], q[n]);
    assert ([s] + p)[..n + 1] == [s] + p[..n] && ([s] + q)[..n + 1] == [s] + q[..n];
  }

  /** Every item goes through a step before `s`. */
  ghost predicate AllBefore(items: seq<Item>, s: Seg) {
    forall item :: item in items ==> item.path != [] && StepPrecedes(item.path[0], s)
  }

  lemma AscendPushed(xs: seq<Item>, s: Seg, ys: seq<Item>)
    requires Ascend(xs) && Ascend(ys) && AllBefore(xs, s)
    ensures Ascend(xs + Below(s, ys))
  {
    hide StepPrecedes, PathPrecedes;
    var items := xs + Below(s, ys);
    forall i, j | 0 <= i < j < |items| ensures PathPrecedes(items[i].path, items[j].path) {
      if i >= |xs| {
        PrecedesBelow(s, ys[i - |xs|].path, ys[j - |xs|].path);
      } else if j >= |xs| {
        assert xs[i] in xs;
        FirstStepsPart(items[i].path, items[j].path);
      }
    }
  }

  lemma FirstStepsPart(p: Path, q: Path)
    requires p != [] && q != [] && StepPrecedes(p[0], q[0])
    ensures PathPrecedes(p, q)
  {
    assert p[..0] == q[..0];
  }

  /** The items come in the order of their paths: positions ascending, keys in the order of their code
      units. */
  lemma {:induction false} ItemsAscend(a: Json, b: Json)
    ensures Ascend(Diff(a, b))
    decreases a, 1, 0
  {
    if a.Arr? && b.Arr? {
      AscendByIndex(a, b, Longer(a.items, b.items));
    } else if a.Obj? && b.Obj? {
      AscendByKey(a, b, Sorted(a.fields.Keys + b.fields.Keys));
    }
  }

  lemma {:induction false} AscendByIndex(a: Json, b: Json, n: nat)
    requires a.Arr? && b.Arr? && n <= Longer(a.items, b.items)
    ensures Ascend(DiffItems(a, b, n))
    decreases a, 0, n
  {
    hide Diff, Ascend;
    if n == 0 {
      assert Ascend([]) by { NothingAscends(); }
    } else {
      var i := n - 1;
      AscendByIndex(a, b, i);
      if i < |a.items| && i < |b.items| {
        ItemsAscend(a.items[i], b.items[i]);
      } else {
        OneAscends(AtIndex(a, b, i));
      }
      ItemsGoThroughIndexes(a, b, i);
      AscendPushed(DiffItems(a, b, i), Index(i), AtIndex(a, b, i));
    }
  }

  lemma NothingAscends()
    ensures Ascend([])
  {
  }

  lemma OneAscends(items: seq<Item>)
    requires |items| <= 1
    ensures Ascend(items)
  {
  }

  lemma {:induction false} AscendByKey(a: Json, b: Json, keys: seq<Text>)
    requires a.Obj? && b.Obj? && forall k :: k in keys ==> k in a.fields || k in b.fields
    requires forall i, j :: 0 <= i < j < |keys| ==> Le(keys[i], keys[j]) && keys[i] != keys[j]
    ensures Ascend(DiffKeys(a, b, keys))
    decreases a, 0, |keys|
  {
    hide Diff, Ascend, Le, Precedes;
    if keys == [] {
      assert Ascend([]) by { NothingAscends(); }
    } else {
      var before, k := keys[..|keys| - 1], keys[|keys| - 1];
      AscendByKey(a, b, before);
      if k in a.fields && k in b.fields {
        ItemsAscend(a.fields[k], b.fields[k]);
      } else {
        OneAscends(AtKey(a, b, k));
      }
      ItemsGoThroughKeys(a, b, before);
      forall l | l in before ensures Precedes(l, k) {
        LeMeans(l, k);
      }
      AscendPushed(DiffKeys(a, b, before), Key(k), AtKey(a, b, k));
    }
  }
}
