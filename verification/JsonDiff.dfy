/** `diffJson`: the recursive structural diff of two JSON values, and patching with its result. */
module JsonDiff {
  import opened Content

  // ---- The order of object keys ----

  /** The order of `Array.prototype.sort` on strings: code unit by code unit, a prefix first. */
  predicate Le(s: Text, t: Text) {
    s == [] || (t != [] && (s[0] < t[0] || (s[0] == t[0] && Le(s[1..], t[1..]))))
  }

  lemma {:induction false} LeIsTotal(s: Text, t: Text)
    ensures Le(s, t) || Le(t, s)
    ensures Le(s, t) && Le(t, s) ==> s == t
  {
    if s != [] && t != [] {
      LeIsTotal(s[1..], t[1..]);
      assert s == [s[0]] + s[1..] && t == [t[0]] + t[1..];
    }
  }

  lemma {:induction false} LeIsTransitive(s: Text, t: Text, u: Text)
    requires Le(s, t) && Le(t, u)
    ensures Le(s, u)
  {
    if s != [] {
      if s[0] == t[0] == u[0] {
        LeIsTransitive(s[1..], t[1..], u[1..]);
      }
    }
  }

  ghost predicate IsLeast(k: Text, keys: set<Text>) {
    k in keys && forall l :: l in keys ==> Le(k, l)
  }

  lemma {:induction false} OneLeast(keys: set<Text>)
    requires keys != {}
    ensures exists k :: IsLeast(k, keys)
    ensures forall k, l :: IsLeast(k, keys) && IsLeast(l, keys) ==> k == l
    decreases keys
  {
    var k :| k in keys;
    LeIsTotal(k, k);
    if keys == {k} {
      assert IsLeast(k, keys);
    } else {
      OneLeast(keys - {k});
      var l :| IsLeast(l, keys - {k});
      LeIsTotal(k, l);
      var least := if Le(k, l) then k else l;
      forall m | m in keys ensures Le(least, m) {
        if m != k && least == k {
          LeIsTransitive(k, l, m);
        }
      }
      assert IsLeast(least, keys);
    }
    forall x, y | IsLeast(x, keys) && IsLeast(y, keys) ensures x == y {
      LeIsTotal(x, y);
    }
  }

  function Least(keys: set<Text>): (least: Text)
    requires keys != {}
    ensures IsLeast(least, keys)
  {
    OneLeast(keys);
    assert forall k :: (k in keys && forall l :: l in keys ==> Le(k, l)) ==> IsLeast(k, keys);
    var k :| k in keys && forall l :: l in keys ==> Le(k, l);
    k
  }

  /** The keys in ascending order, each once. */
  function Sorted(keys: set<Text>): (result: seq<Text>)
    ensures forall k :: k in result <==> k in keys
    ensures forall i, j :: 0 <= i < j < |result| ==> Le(result[i], result[j]) && result[i] != result[j]
  {
    if keys == {} then []
    else
      var k := Least(keys);
      [k] + Sorted(keys - {k})
  }

  // ---- Items and paths ----

  datatype Seg = Key(k: Text) | Index(i: nat)

  type Path = seq<Seg>

  /** One difference, at a path below the two values that were compared. */
  datatype Item =
    | Added(path: Path, b: Json)
    | Removed(path: Path, a: Json)
    | Changed(path: Path, a: Json, b: Json)

  function Below(s: Seg, items: seq<Item>): (result: seq<Item>)
    ensures |result| == |items|
    ensures forall i :: 0 <= i < |items| ==> result[i] == items[i].(path := [s] + items[i].path)
  {
    seq(|items|, i requires 0 <= i < |items| => items[i].(path := [s] + items[i].path))
  }

  function Longer(x: seq<Json>, y: seq<Json>): nat { if |x| >= |y| then |x| else |y| }

  /** The specification of `diffJson`: what is pushed, in order, with paths as lists of steps. */
  function Diff(a: Json, b: Json): seq<Item>
    decreases a, 1, 0
  {
    if a.Arr? && b.Arr? then DiffItems(a, b, Longer(a.items, b.items))
    else if a.Obj? && b.Obj? then DiffKeys(a, b, Sorted(a.fields.Keys + b.fields.Keys))
    else if a == b then []
    else [Changed([], a, b)]
  }

  function DiffItems(a: Json, b: Json, n: nat): seq<Item>
    requires a.Arr? && b.Arr? && n <= Longer(a.items, b.items)
    decreases a, 0, n
  {
    if n == 0 then [] else DiffItems(a, b, n - 1) + Below(Index(n - 1), AtIndex(a, b, n - 1))
  }

  function DiffKeys(a: Json, b: Json, keys: seq<Text>): seq<Item>
    requires a.Obj? && b.Obj? && (forall k :: k in keys ==> k in a.fields || k in b.fields)
    decreases a, 0, |keys|
  {
    if keys == [] then []
    else
      var k := keys[|keys| - 1];
      DiffKeys(a, b, keys[..|keys| - 1]) + Below(Key(k), AtKey(a, b, k))
  }

  /** The items of one array position, seen from that position. */
  function AtIndex(a: Json, b: Json, i: nat): seq<Item>
    requires a.Arr? && b.Arr? && i < Longer(a.items, b.items)
    decreases a, 0, 0
  {
    if i >= |a.items| then [Added([], b.items[i])]
    else if i >= |b.items| then [Removed([], a.items[i])]
    else Diff(a.items[i], b.items[i])
  }

  /** The items of one object member, seen from that member. */
  function AtKey(a: Json, b: Json, k: Text): seq<Item>
    requires a.Obj? && b.Obj? && (k in a.fields || k in b.fields)
    decreases a, 0, 0
  {
    if k !in a.fields then [Added([], b.fields[k])]
    else if k !in b.fields then [Removed([], a.fields[k])]
    else Diff(a.fields[k], b.fields[k])
  }

  // ---- Rendered paths ----

  const DOT: CodeUnit := 0x2E
  const OPEN: CodeUnit := 0x5B
  const CLOSE: CodeUnit := 0x5D
  const DOLLAR: CodeUnit := 0x24

  function Decimal(n: nat): (digits: Text)
    ensures digits != [] && forall i :: 0 <= i < |digits| ==> 0x30 <= digits[i] <= 0x39
  {
    var last: CodeUnit := 0x30 + n % 10;
    if n < 10 then [last] else Decimal(n / 10) + [last]
  }

  function RenderSeg(s: Seg): Text {
    match s
    case Key(k) => [DOT] + k
    case Index(i) => [OPEN] + Decimal(i) + [CLOSE]
  }

  function Render(path: Path): Text {
    if path == [] then [] else RenderSeg(path[0]) + Render(path[1..])
  }

  /** An item as `diffJson` returns it, with its path as text. */
  datatype TextItem =
    | TextAdded(path: Text, b: Json)
    | TextRemoved(path: Text, a: Json)
    | TextChanged(path: Text, a: Json, b: Json)

  function RenderItem(base: Text, item: Item): TextItem {
    var path := base + Render(item.path);
    match item
    case Added(_, b) => TextAdded(path, b)
    case Removed(_, a) => TextRemoved(path, a)
    case Changed(_, a, b) => TextChanged(path, a, b)
  }

  function RenderAll(base: Text, items: seq<Item>): (result: seq<TextItem>)
    ensures |result| == |items|
  {
    seq(|items|, i requires 0 <= i < |items| => RenderItem(base, items[i]))
  }

  lemma RenderItemBelow(base: Text, s: Seg, item: Item)
    ensures RenderItem(base, item.(path := [s] + item.path)) == RenderItem(base + RenderSeg(s), item)
  {
    RenderStep(base, s, item.path);
    hide Render, RenderSeg;
  }

  lemma RenderStep(base: Text, s: Seg, path: Path)
    ensures base + Render([s] + path) == (base + RenderSeg(s)) + Render(path)
  {
    hide RenderSeg;
    assert ([s] + path)[1..] == path;
    assert base + (RenderSeg(s) + Render(path)) == (base + RenderSeg(s)) + Render(path);
  }

  lemma RenderBelow(base: Text, s: Seg, items: seq<Item>)
    ensures RenderAll(base, Below(s, items)) == RenderAll(base + RenderSeg(s), items)
  {
    forall i | 0 <= i < |items|
      ensures RenderItem(base, Below(s, items)[i]) == RenderItem(base + RenderSeg(s), items[i])
    {
      RenderItemBelow(base, s, items[i]);
    }
  }

  lemma RenderHere(base: Text, item: Item)
    requires item.path == []
    ensures RenderAll(base, [item]) == [RenderItem(base, item)] && base + Render(item.path) == base
  {
  }

  lemma RenderConcat(base: Text, xs: seq<Item>, ys: seq<Item>)
    ensures RenderAll(base, xs + ys) == RenderAll(base, xs) + RenderAll(base, ys)
  {
  }

  lemma {:induction false} SameHasNoDiff(a: Json)
    ensures Diff(a, a) == []
    decreases a, 1, 0
  {
    if a.Arr? {
      SameItems(a, |a.items|);
    } else if a.Obj? {
      SameKeys(a, Sorted(a.fields.Keys + a.fields.Keys));
    }
  }

  lemma {:induction false} SameItems(a: Json, n: nat)
    requires a.Arr? && n <= |a.items|
    ensures DiffItems(a, a, n) == []
    decreases a, 0, n
  {
    if n > 0 {
      SameItems(a, n - 1);
      SameHasNoDiff(a.items[n - 1]);
    }
  }

  lemma {:induction false} SameKeys(a: Json, keys: seq<Text>)
    requires a.Obj? && forall k :: k in keys ==> k in a.fields
    ensures DiffKeys(a, a, keys) == []
    decreases a, 0, |keys|
  {
    if keys != [] {
      SameKeys(a, keys[..|keys| - 1]);
      SameHasNoDiff(a.fields[keys[|keys| - 1]]);
    }
  }

  /** `diffJson(a, b, basePath)`. Whether two containers are the same object is not visible in their
      values, so `same` is any answer that implies that they are equal. */
  method DiffJson(a: Json, b: Json, basePath: Text) returns (out: seq<TextItem>)
    ensures out == RenderAll(if basePath == [] then [0x24] else basePath, Diff(a, b))
    decreases a, 1
  {
    var same: bool :| (same ==> a == b) && (a == b && !a.Arr? && !a.Obj? ==> same);
    if same {
      SameHasNoDiff(a);
      return [];
    }
    var path := if basePath == [] then [DOLLAR] else basePath;
    if a.Arr? && b.Arr? {
      out := DiffArrays(a, b, path);
    } else if a.Obj? && b.Obj? {
      out := DiffObjects(a, b, path);
    } else {
      RenderHere(path, Changed([], a, b));
      out := [TextChanged(path, a, b)];
    }
  }

  /** The branch for two arrays: compare by index. */
  method DiffArrays(a: Json, b: Json, path: Text) returns (out: seq<TextItem>)
    requires a.Arr? && b.Arr? && path != []
    ensures out == RenderAll(path, Diff(a, b))
    decreases a, 0
  {
    hide RenderAll;
    out := [];
    var n := Longer(a.items, b.items);
    assert RenderAll(path, []) == [];
    for i := 0 to n
      invariant out == RenderAll(path, DiffItems(a, b, i))
    {
      var p := path + RenderSeg(Index(i));
      RenderConcat(path, DiffItems(a, b, i), Below(Index(i), AtIndex(a, b, i)));
      RenderBelow(path, Index(i), AtIndex(a, b, i));
      var inner: seq<TextItem>;
      if i >= |a.items| {
        RenderHere(p, Added([], b.items[i]));
        inner := [TextAdded(p, b.items[i])];
      } else if i >= |b.items| {
        RenderHere(p, Removed([], a.items[i]));
        inner := [TextRemoved(p, a.items[i])];
      } else {
        inner := DiffJson(a.items[i], b.items[i], p);
      }
      out := out + inner;
    }
  }

  lemma NoKeys(a: Json, b: Json)
    requires a.Obj? && b.Obj?
    ensures DiffKeys(a, b, []) == []
  {
  }

  /** What the loop over the keys has pushed after one more key. */
  lemma OneMoreKey(a: Json, b: Json, path: Text, keys: seq<Text>, j: nat)
    requires a.Obj? && b.Obj? && j < |keys| && forall k :: k in keys ==> k in a.fields || k in b.fields
    ensures (forall k :: k in keys[..j] ==> k in keys) && (forall k :: k in keys[..j + 1] ==> k in keys)
    ensures RenderAll(path, DiffKeys(a, b, keys[..j + 1]))
            == RenderAll(path, DiffKeys(a, b, keys[..j]))
               + RenderAll(path + RenderSeg(Key(keys[j])), AtKey(a, b, keys[j]))
  {
    hide RenderAll;
    assert keys[..j + 1][..j] == keys[..j];
    RenderConcat(path, DiffKeys(a, b, keys[..j]), Below(Key(keys[j]), AtKey(a, b, keys[j])));
    RenderBelow(path, Key(keys[j]), AtKey(a, b, keys[j]));
  }

  /** The branch for two objects: compare by key, in the order of the sorted union of the keys. */
  method DiffObjects(a: Json, b: Json, path: Text) returns (out: seq<TextItem>)
    requires a.Obj? && b.Obj? && path != []
    ensures out == RenderAll(path, Diff(a, b))
    decreases a, 0
  {
    hide RenderAll;
    hide DiffKeys;
    hide Below;
    out := [];
    var keys := Sorted(a.fields.Keys + b.fields.Keys);
    assert RenderAll(path, DiffKeys(a, b, [])) == [] by { NoKeys(a, b); }
    for j := 0 to |keys|
      invariant forall k :: k in keys[..j] ==> k in keys
      invariant out == RenderAll(path, DiffKeys(a, b, keys[..j]))
    {
      var k := keys[j];
      var p := path + RenderSeg(Key(k));
      OneMoreKey(a, b, path, keys, j);
      var inner: seq<TextItem>;
      if k !in a.fields {
        RenderHere(p, Added([], b.fields[k]));
        inner := [TextAdded(p, b.fields[k])];
      } else if k !in b.fields {
        RenderHere(p, Removed([], a.fields[k]));
        inner := [TextRemoved(p, a.fields[k])];
      } else {
        inner := DiffJson(a.fields[k], b.fields[k], p);
      }
      out := out + inner;
    }
    assert keys[..|keys|] == keys;
  }
}
