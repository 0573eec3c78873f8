/** Patching with a diff, its mirror, and its paths. */
module JsonDiffTheorems {
  import opened Content
  import opened JsonDiff

  // ---- Patching ----

  /** The items under the step `s`, seen from below it. */
  function Under(items: seq<Item>, s: Seg): seq<Item> {
    if items == [] then []
    else
      var before := Under(items[..|items| - 1], s);
      var item := items[|items| - 1];
      if item.path != [] && item.path[0] == s then before + [item.(path := item.path[1..])] else before
  }

  /** One more than the highest array index any item goes through. */
  function IndexBound(items: seq<Item>): nat {
    if items == [] then 0
    else
      var before := IndexBound(items[..|items| - 1]);
      var p := items[|items| - 1].path;
      if p != [] && p[0].Index? && p[0].i >= before then p[0].i + 1 else before
  }

  function HeadKeys(items: seq<Item>): set<Text> {
    set item | item in items && item.path != [] && item.path[0].Key? :: item.path[0].k
  }

  function ValueOf(item: Item): Option<Json> {
    match item
    case Added(_, b) => Some(b)
    case Changed(_, _, b) => Some(b)
    case Removed(_, _) => None
  }

  function Child(a: Json, i: nat): Option<Json>
    requires a.Arr?
  {
    if i < |a.items| then Some(a.items[i]) else None
  }

  function Member(a: Json, k: Text): Option<Json>
    requires a.Obj?
  {
    if k in a.fields then Some(a.fields[k]) else None
  }

  /** Patch a value, or a place without a value, with a whole list of items: an item for the place itself
      decides; otherwise every position and every member is patched with the items under it. */
  function Patch(v: Option<Json>, items: seq<Item>): Option<Json>
    decreases v.Some?, if v.Some? then v.value else Null, 1, 0
  {
    if HasItemHere(items) then ValueOf(FirstHere(items))
    else if v == None then None
    else if v.value.Arr? then
      var n := if |v.value.items| >= IndexBound(items) then |v.value.items| else IndexBound(items);
      Some(Arr(PatchItems(v.value, items, n)))
    else if v.value.Obj? then
      Some(Obj(PatchMembers(v.value, items)))
    else v
  }

  predicate HasItemHere(items: seq<Item>) { exists item <- items :: item.path == [] }

  function FirstHere(items: seq<Item>): (item: Item)
    requires HasItemHere(items)
    ensures item in items && item.path == []
  {
    if items[0].path == [] then items[0] else
      assert forall item :: item in items ==> item == items[0] || item in items[1..];
      FirstHere(items[1..])
  }

  /** The patched first `n` positions; positions left without a value close up. */
  function PatchItems(a: Json, items: seq<Item>, n: nat): seq<Json>
    requires a.Arr?
    decreases true, a, 0, n
  {
    if n == 0 then []
    else
      var before := PatchItems(a, items, n - 1);
      match Patch(Child(a, n - 1), Under(items, Index(n - 1)))
      case None => before
      case Some(v) => before + [v]
  }

  /** The patched members; a member left without a value is gone. */
  function PatchMembers(a: Json, items: seq<Item>): map<Text, Json>
    requires a.Obj?
    decreases true, a, 0, 0
  {
    map k | k in a.fields.Keys + HeadKeys(items) && Patch(Member(a, k), Under(items, Key(k))).Some?
      :: Patch(Member(a, k), Under(items, Key(k))).value
  }

  // ---- What is under a step of a diff ----

  lemma {:induction false} UnderConcat(xs: seq<Item>, ys: seq<Item>, s: Seg)
    ensures Under(xs + ys, s) == Under(xs, s) + Under(ys, s)
    decreases |ys|
  {
    if ys == [] {
      assert xs + ys == xs;
    } else {
      assert (xs + ys)[..|xs + ys| - 1] == xs + ys[..|ys| - 1];
      UnderConcat(xs, ys[..|ys| - 1], s);
    }
  }

  lemma {:induction false} UnderBelow(s: Seg, t: Seg, items: seq<Item>)
    ensures Under(Below(s, items), t) == if s == t then items else []
    decreases |items|
  {
    if items != [] {
      var last := |items| - 1;
      assert Below(s, items)[..last] == Below(s, items[..last]);
      UnderBelow(s, t, items[..last]);
      assert ([s] + items[last].path)[1..] == items[last].path;
      assert items == items[..last] + [items[last]];
    }
  }

  lemma {:induction false} UnderDiffItems(a: Json, b: Json, n: nat, i: nat)
    requires a.Arr? && b.Arr? && n <= Longer(a.items, b.items)
    ensures Under(DiffItems(a, b, n), Index(i)) == if i < n then AtIndex(a, b, i) else []
    decreases n
  {
    hide DiffItems, AtIndex, Under;
    if n == 0 {
      NoIndexes(a, b, Index(i));
    } else {
      UnderDiffItems(a, b, n - 1, i);
      LastIndex(a, b, n, Index(i));
      assert Under(DiffItems(a, b, n - 1), Index(i)) + [] == Under(DiffItems(a, b, n - 1), Index(i));
    }
  }

  lemma NoIndexes(a: Json, b: Json, s: Seg)
    requires a.Arr? && b.Arr?
    ensures Under(DiffItems(a, b, 0), s) == []
  {
  }

  lemma LastIndex(a: Json, b: Json, n: nat, s: Seg)
    requires a.Arr? && b.Arr? && 0 < n <= Longer(a.items, b.items)
    ensures Under(DiffItems(a, b, n), s) ==
            Under(DiffItems(a, b, n - 1), s) + if s == Index(n - 1) then AtIndex(a, b, n - 1) else []
  {
    hide Diff, AtIndex, Below;
    var last := AtIndex(a, b, n - 1);
    UnderConcat(DiffItems(a, b, n - 1), Below(Index(n - 1), last), s);
    UnderBelow(Index(n - 1), s, last);
    hide Under;
  }

  lemma {:induction false} UnderDiffKeys(a: Json, b: Json, keys: seq<Text>, k: Text)
    requires a.Obj? && b.Obj? && forall l :: l in keys ==> l in a.fields || l in b.fields
    requires forall i, j :: 0 <= i < j < |keys| ==> keys[i] != keys[j]
    ensures Under(DiffKeys(a, b, keys), Key(k)) == if k in keys then AtKey(a, b, k) else []
    decreases |keys|
  {
    if keys != [] {
      var last := |keys| - 1;
      var before := keys[..last];
      assert keys == before + [keys[last]];
      UnderDiffKeys(a, b, before, k);
      UnderConcat(DiffKeys(a, b, before), Below(Key(keys[last]), AtKey(a, b, keys[last])), Key(k));
      UnderBelow(Key(keys[last]), Key(k), AtKey(a, b, keys[last]));
      hide Under, Below, AtKey, Diff;
    }
  }

  /** Items of a container diff go through a step of the container. */
  lemma {:induction false} ItemsGoThroughIndexes(a: Json, b: Json, n: nat)
    requires a.Arr? && b.Arr? && n <= Longer(a.items, b.items)
    ensures forall item :: item in DiffItems(a, b, n) ==> item.path != [] && item.path[0].Index? && item.path[0].i < n
    decreases n
  {
    if n > 0 {
      ItemsGoThroughIndexes(a, b, n - 1);
    }
  }

  lemma {:induction false} ItemsGoThroughKeys(a: Json, b: Json, keys: seq<Text>)
    requires a.Obj? && b.Obj? && forall l :: l in keys ==> l in a.fields || l in b.fields
    ensures forall item :: item in DiffKeys(a, b, keys) ==>
        item.path != [] && item.path[0].Key? && item.path[0].k in keys
    decreases |keys|
  {
    if keys != [] {
      ItemsGoThroughKeys(a, b, keys[..|keys| - 1]);
    }
  }

  lemma {:induction false} BoundCovers(items: seq<Item>, n: nat)
    requires forall item :: item in items ==> item.path != [] && item.path[0].Index? && item.path[0].i < n
    ensures IndexBound(items) <= n
    ensures forall item :: item in items ==> item.path[0].i < IndexBound(items)
    decreases |items|
  {
    if items != [] {
      BoundCovers(items[..|items| - 1], n);
      assert forall item :: item in items ==> item in items[..|items| - 1] || item == items[|items| - 1];
    }
  }

  // ---- The round trip ----

  lemma PatchHere(v: Option<Json>, item: Item)
    requires item.path == []
    ensures Patch(v, [item]) == ValueOf(item)
  {
    assert item in [item];
  }

  lemma {:induction false} SomethingUnder(items: seq<Item>, s: Seg)
    requires Under(items, s) != []
    ensures exists item :: item in items && item.path != [] && item.path[0] == s
    decreases |items|
  {
    var item := items[|items| - 1];
    if item.path != [] && item.path[0] == s {
      assert item in items;
    } else {
      SomethingUnder(items[..|items| - 1], s);
    }
  }

  /** The positions a patch looks at are exactly those of the longer array. */
  lemma PatchedLength(a: Json, b: Json)
    requires a.Arr? && b.Arr?
    ensures var bound := IndexBound(Diff(a, b));
            (if |a.items| >= bound then |a.items| else bound) == Longer(a.items, b.items)
  {
    hide Under, Below, DiffItems, IndexBound;
    var n := Longer(a.items, b.items);
    var items := Diff(a, b);
    assert items == DiffItems(a, b, n);
    ItemsGoThroughIndexes(a, b, n);
    BoundCovers(items, n);
    if |b.items| > |a.items| {
      UnderDiffItems(a, b, n, n - 1);
      SomethingUnder(items, Index(n - 1));
    }
  }

  /** Main theorem: patching the first value with the diff gives the second. */
  lemma {:induction false} RoundTrip(a: Json, b: Json)
    ensures Patch(Some(a), Diff(a, b)) == Some(b)
    decreases a, 1, 0
  {
    var items := Diff(a, b);
    if a.Arr? && b.Arr? {
      var n := Longer(a.items, b.items);
      ItemsGoThroughIndexes(a, b, n);
      PatchedLength(a, b);
      PatchedItems(a, b, n);
      assert b.items[..|b.items|] == b.items;
    } else if a.Obj? && b.Obj? {
      ItemsGoThroughKeys(a, b, Sorted(a.fields.Keys + b.fields.Keys));
      PatchedKeys(a, b);
    } else if a != b {
      PatchHere(Some(a), Changed([], a, b));
    }
  }

  lemma {:induction false} PatchedIndex(a: Json, b: Json, i: nat)
    requires a.Arr? && b.Arr? && i < Longer(a.items, b.items)
    ensures Patch(Child(a, i), Under(Diff(a, b), Index(i))) == Child(b, i)
    decreases a, 0, 0
  {
    UnderDiffItems(a, b, Longer(a.items, b.items), i);
    if i >= |a.items| {
      PatchHere(None, Added([], b.items[i]));
    } else if i >= |b.items| {
      PatchHere(Some(a.items[i]), Removed([], a.items[i]));
    } else {
      RoundTrip(a.items[i], b.items[i]);
    }
  }

  lemma {:induction false} PatchedItems(a: Json, b: Json, n: nat)
    requires a.Arr? && b.Arr? && n <= Longer(a.items, b.items)
    ensures PatchItems(a, Diff(a, b), n) == if n <= |b.items| then b.items[..n] else b.items
    decreases a, 0, n
  {
    hide Patch;
    hide Diff;
    if n > 0 {
      PatchedItems(a, b, n - 1);
      PatchedIndex(a, b, n - 1);
      assert n == |b.items| + 1 ==> b.items[..n - 1] == b.items;
    }
  }

  lemma {:induction false} PatchedKey(a: Json, b: Json, k: Text)
    requires a.Obj? && b.Obj? && (k in a.fields || k in b.fields)
    ensures Patch(Member(a, k), Under(Diff(a, b), Key(k))) == Member(b, k)
    ensures k !in a.fields ==> k in HeadKeys(Diff(a, b))
    decreases a, 0, 0
  {
    UnderDiffKeys(a, b, Sorted(a.fields.Keys + b.fields.Keys), k);
    if k !in a.fields {
      PatchHere(None, Added([], b.fields[k]));
      SomethingUnder(Diff(a, b), Key(k));
    } else if k !in b.fields {
      PatchHere(Some(a.fields[k]), Removed([], a.fields[k]));
    } else {
      RoundTrip(a.fields[k], b.fields[k]);
    }
  }

  lemma HeadKeysAreMembers(a: Json, b: Json)
    requires a.Obj? && b.Obj?
    ensures forall k :: k in HeadKeys(Diff(a, b)) ==> k in a.fields || k in b.fields
  {
    ItemsGoThroughKeys(a, b, Sorted(a.fields.Keys + b.fields.Keys));
  }

  lemma {:induction false} PatchedKeys(a: Json, b: Json)
    requires a.Obj? && b.Obj?
    ensures PatchMembers(a, Diff(a, b)) == b.fields
    decreases a, 0, 1
  {
    hide Patch;
    hide Diff;
    hide HeadKeys;
    hide Under;
    HeadKeysAreMembers(a, b);
    var items := Diff(a, b);
    forall k | k in a.fields || k in b.fields
      ensures Patch(Member(a, k), Under(items, Key(k))) == Member(b, k) && (k !in a.fields ==> k in HeadKeys(items))
    {
      PatchedKey(a, b, k);
    }
  }

  /** The diff is empty exactly when the values are structurally equal. */
  lemma EmptyExactlyWhenEqual(a: Json, b: Json)
    ensures Diff(a, b) == [] <==> a == b
  {
    RoundTrip(a, b);
    RoundTrip(a, a);
    if a == b {
      SameHasNoDiff(a);
    } else {
      SameHasNoDiff(a);
      assert Diff(a, b) == [] ==> Patch(Some(a), Diff(a, b)) == Patch(Some(a), Diff(a, a));
    }
  }

  // ---- The mirror ----

  function MirrorItem(item: Item): Item {
    match item
    case Added(path, b) => Removed(path, b)
    case Removed(path, a) => Added(path, a)
    case Changed(path, a, b) => Changed(path, b, a)
  }

  function Mirror(items: seq<Item>): (result: seq<Item>)
    ensures |result| == |items|
  {
    seq(|items|, i requires 0 <= i < |items| => MirrorItem(items[i]))
  }

  /** Diffing the other way round gives the mirrored items: same paths, same order. */
  lemma {:induction false} DiffIsSymmetric(a: Json, b: Json)
    ensures Diff(b, a) == Mirror(Diff(a, b))
    decreases a, 1, 0
  {
    if a.Arr? && b.Arr? {
      SymmetricItems(a, b, Longer(a.items, b.items));
    } else if a.Obj? && b.Obj? {
      assert a.fields.Keys + b.fields.Keys == b.fields.Keys + a.fields.Keys;
      SymmetricKeys(a, b, Sorted(a.fields.Keys + b.fields.Keys));
    }
  }

  lemma MirrorPushed(xs: seq<Item>, s: Seg, ys: seq<Item>)
    ensures Mirror(xs + Below(s, ys)) == Mirror(xs) + Below(s, Mirror(ys))
  {
  }

  lemma {:induction false} SymmetricItems(a: Json, b: Json, n: nat)
    requires a.Arr? && b.Arr? && n <= Longer(a.items, b.items)
    ensures DiffItems(b, a, n) == Mirror(DiffItems(a, b, n))
    decreases a, 0, n
  {
    if n > 0 {
      var i := n - 1;
      SymmetricItems(a, b, i);
      MirrorPushed(DiffItems(a, b, i), Index(i), AtIndex(a, b, i));
      if i < |a.items| && i < |b.items| {
        DiffIsSymmetric(a.items[i], b.items[i]);
      }
    }
  }

  lemma {:induction false} SymmetricKeys(a: Json, b: Json, keys: seq<Text>)
    requires a.Obj? && b.Obj? && forall l :: l in keys ==> l in a.fields || l in b.fields
    ensures DiffKeys(b, a, keys) == Mirror(DiffKeys(a, b, keys))
    decreases a, 0, |keys|
  {
    if keys != [] {
      var k := keys[|keys| - 1];
      var before := keys[..|keys| - 1];
      SymmetricKeys(a, b, before);
      MirrorPushed(DiffKeys(a, b, before), Key(k), AtKey(a, b, k));
      if k in a.fields && k in b.fields {
        DiffIsSymmetric(a.fields[k], b.fields[k]);
      }
    }
  }

  // ---- Paths ----

  /** No path of an item is a prefix of the path of a later or earlier one. */
  ghost predicate Apart(items: seq<Item>) {
    forall i, j :: 0 <= i < |items| && 0 <= j < |items| && i != j ==> !(items[i].path <= items[j].path)
  }

  lemma PrefixBelow(s: Seg, p: Path, q: Path)
    ensures [s] + p <= [s] + q ==> p <= q
  {
    assert p == ([s] + p)[1..] && q == ([s] + q)[1..];
  }

  /** All paths go through steps of `xs`, or all through the new step `s`, never both. */
  lemma ApartPushed(xs: seq<Item>, s: Seg, ys: seq<Item>)
    requires Apart(xs) && Apart(ys)
    requires forall item :: item in xs ==> item.path != [] && item.path[0] != s
    ensures Apart(xs + Below(s, ys))
  {
    var zs := xs + Below(s, ys);
    forall i, j | 0 <= i < |zs| && 0 <= j < |zs| && i != j ensures !(zs[i].path <= zs[j].path) {
      if i >= |xs| && j >= |xs| {
        PrefixBelow(s, ys[i - |xs|].path, ys[j - |xs|].path);
      } else if i < |xs| {
        assert zs[i] in xs;
      } else {
        assert zs[j] in xs;
      }
    }
  }

  /** The paths of a diff are pairwise not prefixes of one another. */
  lemma {:induction false} PathsAreApart(a: Json, b: Json)
    ensures Apart(Diff(a, b))
    decreases a, 1, 0
  {
    if a.Arr? && b.Arr? {
      IndexPathsAreApart(a, b, Longer(a.items, b.items));
    } else if a.Obj? && b.Obj? {
      KeyPathsAreApart(a, b, Sorted(a.fields.Keys + b.fields.Keys));
    }
  }

  lemma {:induction false} IndexPathsAreApart(a: Json, b: Json, n: nat)
    requires a.Arr? && b.Arr? && n <= Longer(a.items, b.items)
    ensures Apart(DiffItems(a, b, n))
    decreases a, 0, n
  {
    if n > 0 {
      var i := n - 1;
      IndexPathsAreApart(a, b, i);
      ItemsGoThroughIndexes(a, b, i);
      if i < |a.items| && i < |b.items| {
        PathsAreApart(a.items[i], b.items[i]);
      }
      ApartPushed(DiffItems(a, b, i), Index(i), AtIndex(a, b, i));
    }
  }

  lemma {:induction false} KeyPathsAreApart(a: Json, b: Json, keys: seq<Text>)
    requires a.Obj? && b.Obj? && forall l :: l in keys ==> l in a.fields || l in b.fields
    requires forall i, j :: 0 <= i < j < |keys| ==> keys[i] != keys[j]
    ensures Apart(DiffKeys(a, b, keys))
    decreases a, 0, |keys|
  {
    if keys != [] {
      var k := keys[|keys| - 1];
      var before := keys[..|keys| - 1];
      KeyPathsAreApart(a, b, before);
      ItemsGoThroughKeys(a, b, before);
      if k in a.fields && k in b.fields {
        PathsAreApart(a.fields[k], b.fields[k]);
      }
      ApartPushed(DiffKeys(a, b, before), Key(k), AtKey(a, b, k));
    }
  }

  // ---- Rendered paths ----

  /** The key ends like the text of an array position, as in `a[0]`. */
  ghost predicate EndsInIndex(k: Text) { exists l: Text, i: nat :: k == l + RenderSeg(Index(i)) }

  /** Neither a '.' in the key nor an array position at its end. */
  ghost predicate IsPlain(k: Text) { DOT !in k && !EndsInIndex(k) }

  ghost predicate PlainPath(path: Path) { forall s :: s in path && s.Key? ==> IsPlain(s.k) }

  ghost predicate PlainKeys(a: Json) {
    match a
    case Arr(items) => forall i :: 0 <= i < |items| ==> PlainKeys(items[i])
    case Obj(fields) => forall k :: k in fields ==> IsPlain(k) && PlainKeys(fields[k])
    case _ => true
  }

  lemma {:induction false} DecimalIsInjective(m: nat, n: nat)
    requires Decimal(m) == Decimal(n)
    ensures m == n
  {
    var x, y := Decimal(m), Decimal(n);
    assert x[|x| - 1] == 0x30 + m % 10 && y[|y| - 1] == 0x30 + n % 10;
    if m >= 10 && n >= 10 {
      assert x[..|x| - 1] == Decimal(m / 10) && y[..|y| - 1] == Decimal(n / 10);
      DecimalIsInjective(m / 10, n / 10);
    }
  }

  lemma {:induction false} RenderLast(path: Path, s: Seg)
    ensures Render(path + [s]) == Render(path) + RenderSeg(s)
    decreases |path|
  {
    if path == [] {
      assert [s][1..] == [] && [] + [s] == [s];
    } else {
      assert (path + [s])[1..] == path[1..] + [s];
      RenderLast(path[1..], s);
    }
  }

  /** A text has one last separator. */
  lemma SameTail(x: Text, u: Text, y: Text, v: Text, sep: CodeUnit)
    requires sep !in u && sep !in v && x + ([sep] + u) == y + ([sep] + v)
    ensures x == y && u == v
  {
    SeparatorNotLater(x, u, y, v, sep);
    SeparatorNotLater(y, v, x, u, sep);
    var text := x + ([sep] + u);
    assert x == text[..|x|] && u == text[|x| + 1..];
    assert y == (y + ([sep] + v))[..|y|] && v == (y + ([sep] + v))[|y| + 1..];
  }

  lemma SeparatorNotLater(x: Text, u: Text, y: Text, v: Text, sep: CodeUnit)
    requires sep !in v && x + ([sep] + u) == y + ([sep] + v)
    ensures |x| <= |y|
  {
    var text := y + ([sep] + v);
    assert (x + ([sep] + u))[|x|] == sep;
    assert forall n :: |y| < n < |text| ==> text[n] == v[n - |y| - 1];
  }

  /** A text that ends like a key step does not end like an index step, when the key is plain. */
  lemma KeyOrIndex(x: Text, k: Text, y: Text, i: nat)
    requires x + ([DOT] + k) == y + RenderSeg(Index(i))
    ensures DOT in k || EndsInIndex(k)
  {
    var seg := RenderSeg(Index(i));
    var text := y + seg;
    assert DOT !in seg;
    assert forall n :: |y| <= n < |text| ==> text[n] == seg[n - |y|];
    assert (x + ([DOT] + k))[|x|] == DOT;
    assert |x| < |y|;
    var l := k[..|k| - |seg|];
    assert k == (x + ([DOT] + k))[|x| + 1..];
    assert l + seg == k by {
      assert text[|x| + 1..] == text[|x| + 1..|y|] + seg;
    }
  }

  /** Different paths are rendered differently, when their keys are plain. */
  lemma {:induction false} RenderIsInjective(p: Path, q: Path)
    requires PlainPath(p) && PlainPath(q) && Render(p) == Render(q)
    ensures p == q
    decreases |p|
  {
    hide Render, RenderSeg, IsPlain;
    NothingRendersEmpty(p);
    NothingRendersEmpty(q);
    if p != [] && q != [] {
      var m, n := |p| - 1, |q| - 1;
      assert p == p[..m] + [p[m]] && q == q[..n] + [q[n]];
      RenderLast(p[..m], p[m]);
      RenderLast(q[..n], q[n]);
      assert p[m] in p && q[n] in q;
      assert forall s :: s in p[..m] ==> s in p;
      assert forall s :: s in q[..n] ==> s in q;
      SameLastStep(Render(p[..m]), p[m], Render(q[..n]), q[n]);
      RenderIsInjective(p[..m], q[..n]);
    }
  }

  lemma SameLastStep(x: Text, s: Seg, y: Text, t: Seg)
    requires (s.Key? ==> IsPlain(s.k)) && (t.Key? ==> IsPlain(t.k)) && x + RenderSeg(s) == y + RenderSeg(t)
    ensures x == y && s == t
  {
    match (s, t)
    case (Key(k), Key(l)) => SameTail(x, k, y, l, DOT);
    case (Key(k), Index(i)) => KeyOrIndex(x, k, y, i);
    case (Index(i), Key(k)) => KeyOrIndex(y, k, x, i);
    case (Index(i), Index(j)) =>
      var u, v := Decimal(i) + [CLOSE], Decimal(j) + [CLOSE];
      assert RenderSeg(s) == [OPEN] + u && RenderSeg(t) == [OPEN] + v;
      SameTail(x, u, y, v, OPEN);
      assert u[..|u| - 1] == Decimal(i) && v[..|v| - 1] == Decimal(j);
      DecimalIsInjective(i, j);
  }

  ghost predicate IsAmbiguous(k: Text) { exists q: Path :: q != [Key(k)] && Render(q) == Render([Key(k)]) }

  lemma RenderKey(k: Text)
    ensures Render([Key(k)]) == [DOT] + k
  {
    assert [Key(k)][1..] == [];
  }

  /** The text of a key alone is also the text of another path exactly when the key is not plain. */
  lemma KeyIsAmbiguousExactlyWhen(w: Text)
    ensures IsAmbiguous(w) <==> !IsPlain(w)
  {
    hide Render, RenderSeg;
    RenderKey(w);
    if IsAmbiguous(w) {
      var q: Path :| q != [Key(w)] && Render(q) == Render([Key(w)]);
      AnotherReading(w, q);
    }
    if DOT in w {
      var n :| 0 <= n < |w| && w[n] == DOT;
      DottedReading(w[..n], w[n + 1..]);
      assert w == w[..n] + [DOT] + w[n + 1..];
    } else if EndsInIndex(w) {
      var l: Text, i: nat :| w == l + RenderSeg(Index(i));
      IndexedReading(l, i);
    }
  }

  lemma AnotherReading(w: Text, q: Path)
    requires q != [Key(w)] && Render(q) == [DOT] + w
    ensures !IsPlain(w)
  {
    hide Render, EndsInIndex, Decimal;
    NothingRendersEmpty(q);
    var n := |q| - 1;
    assert q == q[..n] + [q[n]];
    RenderLast(q[..n], q[n]);
    LastReading(w, Render(q[..n]), q[n]);
    NothingRendersEmpty(q[..n]);
  }

  lemma LastReading(w: Text, x: Text, s: Seg)
    requires x + RenderSeg(s) == [DOT] + w
    ensures !IsPlain(w) || (s == Key(w) && x == [])
  {
    hide EndsInIndex, Decimal;
    assert [] + ([DOT] + w) == [DOT] + w;
    if s.Index? {
      KeyOrIndex([], w, x, s.i);
    } else if DOT !in w {
      SeparatorNotLater(x, s.k, [], w, DOT);
      assert x == [];
      assert w == ([DOT] + w)[1..] == ([DOT] + s.k)[1..] == s.k;
    }
  }

  lemma NothingRendersEmpty(q: Path)
    ensures Render(q) == [] <==> q == []
  {
  }

  lemma DottedReading(k: Text, l: Text)
    ensures Render([Key(k), Key(l)]) == Render([Key(k + [DOT] + l)])
  {
    hide Render, Decimal;
    RenderKey(k);
    RenderKey(k + [DOT] + l);
    RenderLast([Key(k)], Key(l));
    assert [Key(k)] + [Key(l)] == [Key(k), Key(l)];
  }

  lemma IndexedReading(k: Text, i: nat)
    ensures Render([Key(k), Index(i)]) == Render([Key(k + RenderSeg(Index(i)))])
  {
    hide Render, RenderSeg;
    RenderKey(k);
    RenderKey(k + RenderSeg(Index(i)));
    RenderLast([Key(k)], Index(i));
    assert [Key(k)] + [Index(i)] == [Key(k), Index(i)];
  }

  ghost predicate AllPlain(items: seq<Item>) {
    forall item :: item in items ==> PlainPath(item.path)
  }

  lemma PlainPushed(xs: seq<Item>, s: Seg, ys: seq<Item>)
    requires AllPlain(xs) && AllPlain(ys) && (s.Key? ==> IsPlain(s.k))
    ensures AllPlain(xs + Below(s, ys))
  {
  }

  lemma {:induction false} PathsArePlain(a: Json, b: Json)
    requires PlainKeys(a) && PlainKeys(b)
    ensures AllPlain(Diff(a, b))
    decreases a, 1, 0
  {
    if a.Arr? && b.Arr? {
      IndexPathsArePlain(a, b, Longer(a.items, b.items));
    } else if a.Obj? && b.Obj? {
      KeyPathsArePlain(a, b, Sorted(a.fields.Keys + b.fields.Keys));
    }
  }

  lemma {:induction false} IndexPathsArePlain(a: Json, b: Json, n: nat)
    requires a.Arr? && b.Arr? && n <= Longer(a.items, b.items) && PlainKeys(a) && PlainKeys(b)
    ensures AllPlain(DiffItems(a, b, n))
    decreases a, 0, n
  {
    hide IsPlain, Below, Diff;
    if n > 0 {
      var i := n - 1;
      IndexPathsArePlain(a, b, i);
      if i < |a.items| && i < |b.items| {
        PathsArePlain(a.items[i], b.items[i]);
      }
      PlainPushed(DiffItems(a, b, i), Index(i), AtIndex(a, b, i));
    }
  }

  lemma {:induction false} KeyPathsArePlain(a: Json, b: Json, keys: seq<Text>)
    requires a.Obj? && b.Obj? && (forall l :: l in keys ==> l in a.fields || l in b.fields)
    requires PlainKeys(a) && PlainKeys(b)
    ensures AllPlain(DiffKeys(a, b, keys))
    decreases a, 0, |keys|
  {
    if keys != [] {
      var k := keys[|keys| - 1];
      KeyPathsArePlain(a, b, keys[..|keys| - 1]);
      if k in a.fields && k in b.fields {
        PathsArePlain(a.fields[k], b.fields[k]);
      }
      PlainPushed(DiffKeys(a, b, keys[..|keys| - 1]), Key(k), AtKey(a, b, k));
    }
  }

  /** The path texts `diffJson` returns are pairwise different, when all keys are plain. */
  lemma PathTextsAreDistinct(a: Json, b: Json, base: Text, i: nat, j: nat)
    requires PlainKeys(a) && PlainKeys(b) && i < |Diff(a, b)| && j < |Diff(a, b)| && i != j
    ensures RenderAll(base, Diff(a, b))[i].path != RenderAll(base, Diff(a, b))[j].path
  {
    var items := Diff(a, b);
    PathsAreApart(a, b);
    PathsArePlain(a, b);
    var p, q := items[i].path, items[j].path;
    assert items[i] in items && items[j] in items;
    if base + Render(p) == base + Render(q) {
      assert Render(p) == (base + Render(p))[|base|..] && Render(q) == (base + Render(q))[|base|..];
      RenderIsInjective(p, q);
    }
  }

  lemma {:induction false} FromUnder(items: seq<Item>, s: Seg, x: Item) returns (i: nat)
    requires x in Under(items, s)
    ensures i < |items| && items[i].path == [s] + x.path
    decreases |items|
  {
    var last := |items| - 1;
    var item := items[last];
    if item.path != [] && item.path[0] == s && x == item.(path := item.path[1..]) {
      i := last;
    } else {
      i := FromUnder(items[..last], s, x);
    }
  }

  lemma ItemOfMember(a: Json, b: Json, k: Text, x: Item) returns (i: nat)
    requires a.Obj? && b.Obj? && (k in a.fields || k in b.fields) && x in AtKey(a, b, k)
    ensures i < |Diff(a, b)| && Diff(a, b)[i].path == [Key(k)] + x.path
  {
    UnderDiffKeys(a, b, Sorted(a.fields.Keys + b.fields.Keys), k);
    i := FromUnder(Diff(a, b), Key(k), x);
  }

  lemma ItemOfElement(a: Json, b: Json, n: nat, x: Item) returns (i: nat)
    requires a.Arr? && b.Arr? && n < Longer(a.items, b.items) && x in AtIndex(a, b, n)
    ensures i < |Diff(a, b)| && Diff(a, b)[i].path == [Index(n)] + x.path
  {
    UnderDiffItems(a, b, Longer(a.items, b.items), n);
    i := FromUnder(Diff(a, b), Index(n), x);
  }

  /** Two documents in whose diff the change of the member `w` and a change below the member `k` have the
      path texts of `[Key(w)]` and `[Key(k)] + below`. */
  lemma ChangeBoth(w: Text, k: Text, before: Json, after: Json, n: nat) returns (a: Json, b: Json, i: nat, j: nat)
    requires w != k && n < |Diff(before, after)|
    requires Render([Key(w)]) == Render([Key(k)] + Diff(before, after)[n].path)
    ensures a.Obj? && b.Obj? && w in a.fields && w in b.fields
    ensures i < |Diff(a, b)| && j < |Diff(a, b)| && i != j
    ensures forall base :: RenderAll(base, Diff(a, b))[i].path == RenderAll(base, Diff(a, b))[j].path
  {
    a := Obj(map[w := Null, k := before]);
    b := Obj(map[w := Bool(true), k := after]);
    ChangedLeaf();
    var change := Changed([], Null, Bool(true));
    i := ItemOfMember(a, b, w, change);
    j := ItemOfMember(a, b, k, Diff(before, after)[n]);
    hide Diff, Render;
    assert [Key(w)] + change.path == [Key(w)];
  }

  /** For every key that is not plain there are documents with that key in whose diff two items share
      their path text, whatever the base path. */
  lemma OtherKeysCollide(w: Text) returns (a: Json, b: Json, i: nat, j: nat)
    requires !IsPlain(w)
    ensures a.Obj? && b.Obj? && w in a.fields && w in b.fields
    ensures i < |Diff(a, b)| && j < |Diff(a, b)| && i != j
    ensures forall base :: RenderAll(base, Diff(a, b))[i].path == RenderAll(base, Diff(a, b))[j].path
  {
    ChangedLeaf();
    var change := Changed([], Null, Bool(true));
    if DOT in w {
      var n :| 0 <= n < |w| && w[n] == DOT;
      var k, l := w[..n], w[n + 1..];
      assert w == k + [DOT] + l;
      DottedReading(k, l);
      var before, after := Obj(map[l := Null]), Obj(map[l := Bool(true)]);
      var m := ItemOfMember(before, after, l, change);
      assert [Key(k)] + ([Key(l)] + change.path) == [Key(k), Key(l)];
      a, b, i, j := ChangeBoth(w, k, before, after, m);
    } else {
      var k: Text, n: nat :| w == k + RenderSeg(Index(n));
      assert |w| > |k|;
      IndexedReading(k, n);
      var before, after := Arr(Nulls(n) + [Null]), Arr(Nulls(n) + [Bool(true)]);
      var m := ItemOfElement(before, after, n, change);
      assert [Key(k)] + ([Index(n)] + change.path) == [Key(k), Index(n)];
      a, b, i, j := ChangeBoth(w, k, before, after, m);
    }
  }

  function Nulls(n: nat): (items: seq<Json>)
    ensures |items| == n
  {
    seq(n, _ => Null)
  }

  lemma ChangedLeaf()
    ensures Changed([], Null, Bool(true)) in Diff(Null, Bool(true))
  {
    assert Diff(Null, Bool(true))[0] == Changed([], Null, Bool(true));
  }
}
