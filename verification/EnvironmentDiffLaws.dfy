/** The diff is empty exactly on equal environments, mirrors, and rebuilds one side from the other. */
module EnvironmentDiffLaws {
  import opened Messages
  import opened EnvironmentDiff

  // ---- Equality up to the order of order-keyed lists, independently of the comparison ----

  /** A value with every order-keyed list turned into a mapping from order to entry. */
  datatype Norm = Atom(value: Value) | Mapped(mode: Mode, kids: map<Seg, Norm>)

  function OwnMode(v: Value, c: Setting): Option<Mode>
  {
    match v
    case Scalar(_) => None
    case Dict(_) => Some(ByKey)
    case List(items) => if IsKeyed(items, c) then Some(ByOrder) else if AllDicts(items) then Some(ByIndex) else None
  }

  function NormOf(v: Value, c: Setting): Norm
    decreases v
  {
    var m := OwnMode(v, c);
    if m.None? then Atom(v)
    else Mapped(m.value, map s | s in Segs(v, m.value, c) :: NormOf(Kid(v, m.value, s, c), c))
  }

  ghost predicate Same(x: Value, y: Value, c: Setting) { NormOf(x, c) == NormOf(y, c) }

  lemma NormKids(v: Value, m: Mode, c: Setting)
    requires OwnMode(v, c) == Some(m)
    ensures NormOf(v, c).Mapped? && NormOf(v, c).mode == m && NormOf(v, c).kids.Keys == Segs(v, m, c)
    ensures forall s | s in Segs(v, m, c) :: NormOf(v, c).kids[s] == NormOf(Kid(v, m, s, c), c)
  {
  }

  /** Values broken down alike are the same exactly when their parts are. */
  lemma SameByKids(x: Value, y: Value, m: Mode, c: Setting)
    requires OwnMode(x, c) == Some(m) && OwnMode(y, c) == Some(m)
    ensures Same(x, y, c) <==>
      && Segs(x, m, c) == Segs(y, m, c)
      && forall s | s in Segs(x, m, c) :: Same(Kid(x, m, s, c), Kid(y, m, s, c), c)
  {
    NormKids(x, m, c);
    NormKids(y, m, c);
    var p, q := NormOf(x, c).kids, NormOf(y, c).kids;
    if Segs(x, m, c) == Segs(y, m, c) && forall s | s in Segs(x, m, c) :: Same(Kid(x, m, s, c), Kid(y, m, s, c), c) {
      forall s | s in p.Keys ensures p[s] == q[s] {
        assert Same(Kid(x, m, s, c), Kid(y, m, s, c), c);
      }
      assert p == q;
    }
  }

  /** The order of an entry is part of what it is. */
  lemma SameOrder(x: Value, y: Value, c: Setting)
    requires Same(x, y, c) && x.Dict?
    ensures y.Dict? && OrderOf(x, c) == OrderOf(y, c)
  {
    NormKids(x, ByKey, c);
    assert OwnMode(y, c) == Some(ByKey);
    SameByKids(x, y, ByKey, c);
    if "order" in x.fields {
      assert Key("order") in Segs(x, ByKey, c);
      assert Same(Kid(x, ByKey, Key("order"), c), Kid(y, ByKey, Key("order"), c), c);
    }
    if "order" in y.fields {
      assert Key("order") in Segs(y, ByKey, c);
      assert Same(Kid(x, ByKey, Key("order"), c), Kid(y, ByKey, Key("order"), c), c);
    }
  }

  // ---- Soundness and completeness ----

  lemma {:induction false} EmptyByParts(x: Value, y: Value, m: Mode, segs: seq<Seg>, path: Path, c: Setting)
    requires Fits(x, m, c) && Fits(y, m, c) && forall s | s in segs :: s in Segs(x, m, c) + Segs(y, m, c)
    ensures KidsDiff(x, y, m, segs, path, c) == [] <==> forall s | s in segs :: KidDiff(x, y, m, s, path, c) == []
    decreases |segs|
  {
    if segs == [] {
      assert KidsDiff(x, y, m, segs, path, c) == [];
    } else {
      EmptyByParts(x, y, m, segs[1..], path, c);
      assert segs[0] in segs;
      forall s | s in segs ensures s == segs[0] || s in segs[1..] {
      }
      assert forall s | s in segs[1..] :: s in segs;
    }
  }

  lemma OnlyEqualAtomsAreSame(x: Value, y: Value, c: Setting)
    requires ModeOf(x, y, c).None?
    ensures Same(x, y, c) <==> x == y
  {
    if Same(x, y, c) {
      assert OwnMode(x, c) == OwnMode(y, c);
      if OwnMode(x, c).Some? {
        var m := OwnMode(x, c).value;
        NormKids(x, m, c);
        NormKids(y, m, c);
        assert m == ByIndex;
        SameLength(x.items, y.items, c);
      }
    }
  }

  lemma IndexIn(xs: seq<Value>, i: nat, c: Setting)
    requires AllDicts(xs)
    ensures Index(i) in Segs(List(xs), ByIndex, c) <==> i < |xs|
  {
  }

  lemma SameLength(xs: seq<Value>, ys: seq<Value>, c: Setting)
    requires AllDicts(xs) && AllDicts(ys) && Segs(List(xs), ByIndex, c) == Segs(List(ys), ByIndex, c)
    ensures |xs| == |ys|
  {
    IndexIn(xs, |xs|, c);
    IndexIn(ys, |xs|, c);
    IndexIn(xs, |ys|, c);
    IndexIn(ys, |ys|, c);
  }

  ghost predicate ItemsSame(xs: seq<Value>, ys: seq<Value>, c: Setting)
  {
    |xs| == |ys| && forall i | 0 <= i < |xs| :: xs[i].Dict? && Same(xs[i], ys[i], c)
  }

  lemma SameItemsSameOrders(xs: seq<Value>, ys: seq<Value>, c: Setting)
    requires ItemsSame(xs, ys, c)
    ensures forall i | 0 <= i < |xs| :: ys[i].Dict? && OrderOf(xs[i], c) == OrderOf(ys[i], c)
    ensures IsKeyed(xs, c) <==> IsKeyed(ys, c)
  {
    forall i | 0 <= i < |xs| ensures ys[i].Dict? && OrderOf(xs[i], c) == OrderOf(ys[i], c) {
      SameOrder(xs[i], ys[i], c);
    }
  }

  /** Every part is there on both sides and the same. */
  ghost predicate PartsSame(x: Value, y: Value, m: Mode, c: Setting)
    requires Fits(x, m, c) && Fits(y, m, c)
  {
    && Segs(x, m, c) == Segs(y, m, c)
    && forall s | s in Segs(x, m, c) :: Same(Kid(x, m, s, c), Kid(y, m, s, c), c)
  }

  lemma PartsByIndex(xs: seq<Value>, ys: seq<Value>, c: Setting)
    requires AllDicts(xs) && AllDicts(ys) && PartsSame(List(xs), List(ys), ByIndex, c)
    ensures ItemsSame(xs, ys, c)
  {
    SameLength(xs, ys, c);
    forall i | 0 <= i < |xs| ensures Same(xs[i], ys[i], c) {
      assert Index(i) in Segs(List(xs), ByIndex, c);
      assert Same(Kid(List(xs), ByIndex, Index(i), c), Kid(List(ys), ByIndex, Index(i), c), c);
    }
  }

  /** Where two values are compared part by part, they are the same exactly when all parts are. */
  lemma SameByParts(x: Value, y: Value, m: Mode, c: Setting)
    requires ModeOf(x, y, c) == Some(m)
    ensures Same(x, y, c) <==> PartsSame(x, y, m, c)
  {
    if OwnMode(x, c) == Some(m) && OwnMode(y, c) == Some(m) {
      SameByKids(x, y, m, c);
    } else {
      assert OwnMode(x, c) != OwnMode(y, c);
      if PartsSame(x, y, m, c) {
        PartsByIndex(x.items, y.items, c);
        SameItemsSameOrders(x.items, y.items, c);
      }
    }
  }

  /** One part is there on both sides and the same. */
  ghost predicate PartSame(x: Value, y: Value, m: Mode, s: Seg, c: Setting)
    requires Fits(x, m, c) && Fits(y, m, c)
  {
    s in Segs(x, m, c) && s in Segs(y, m, c) && Same(Kid(x, m, s, c), Kid(y, m, s, c), c)
  }

  lemma KidEmpty(x: Value, y: Value, m: Mode, s: Seg, path: Path, c: Setting)
    requires c.ignored == {} && Fits(x, m, c) && Fits(y, m, c) && s in Segs(x, m, c) + Segs(y, m, c)
    ensures KidDiff(x, y, m, s, path, c) == [] <==> PartSame(x, y, m, s, c)
    decreases x, 0
  {
    if s in Segs(x, m, c) && s in Segs(y, m, c) {
      EmptyExactlyWhenSame(Kid(x, m, s, c), Kid(y, m, s, c), path + [s], c);
    }
  }

  lemma PartsByPart(x: Value, y: Value, m: Mode, c: Setting)
    requires Fits(x, m, c) && Fits(y, m, c)
    ensures PartsSame(x, y, m, c) <==> forall s | s in Segs(x, m, c) + Segs(y, m, c) :: PartSame(x, y, m, s, c)
  {
    if forall s | s in Segs(x, m, c) + Segs(y, m, c) :: PartSame(x, y, m, s, c) {
      forall s ensures s in Segs(x, m, c) <==> s in Segs(y, m, c) {
        assert s in Segs(x, m, c) + Segs(y, m, c) ==> PartSame(x, y, m, s, c);
      }
      forall s | s in Segs(x, m, c) ensures Same(Kid(x, m, s, c), Kid(y, m, s, c), c) {
        assert PartSame(x, y, m, s, c);
      }
    }
  }

  lemma KidsEmpty(x: Value, y: Value, m: Mode, path: Path, c: Setting)
    requires c.ignored == {} && Fits(x, m, c) && Fits(y, m, c)
    ensures KidsDiff(x, y, m, PartsOf(x, y, m, c), path, c) == [] <==> PartsSame(x, y, m, c)
    decreases x, 1
  {
    var both := Segs(x, m, c) + Segs(y, m, c);
    EmptyByParts(x, y, m, PartsOf(x, y, m, c), path, c);
    SortedMembers(both);
    forall s | s in both ensures KidDiff(x, y, m, s, path, c) == [] <==> PartSame(x, y, m, s, c) {
      KidEmpty(x, y, m, s, path, c);
    }
    PartsByPart(x, y, m, c);
  }

  /**
   With no ignored keys the comparison of two values has no entry exactly when they are equal up to the
   order of order-keyed lists, at every depth.
   */
  lemma {:induction false} EmptyExactlyWhenSame(x: Value, y: Value, path: Path, c: Setting)
    requires c.ignored == {}
    ensures Compare(x, y, path, c) == [] <==> Same(x, y, c)
    decreases x, 2
  {
    var m := ModeOf(x, y, c);
    if m.None? {
      OnlyEqualAtomsAreSame(x, y, c);
    } else if m.value == ByKey || x != y {
      KidsEmpty(x, y, m.value, path, c);
      SameByParts(x, y, m.value, c);
    }
  }

  /** Having no difference is an equivalence. */
  lemma NoDifferenceIsAnEquivalence(x: Value, y: Value, z: Value, path: Path, c: Setting)
    requires c.ignored == {}
    ensures Compare(x, x, path, c) == []
    ensures Compare(x, y, path, c) == [] ==> Compare(y, x, path, c) == []
    ensures Compare(x, y, path, c) == [] && Compare(y, z, path, c) == [] ==> Compare(x, z, path, c) == []
  {
    EmptyExactlyWhenSame(x, x, path, c);
    EmptyExactlyWhenSame(x, y, path, c);
    EmptyExactlyWhenSame(y, x, path, c);
    EmptyExactlyWhenSame(y, z, path, c);
    EmptyExactlyWhenSame(x, z, path, c);
  }

  /** `ys` lists the entries of `xs` in another order. */
  ghost predicate Reordered(xs: seq<Value>, ys: seq<Value>, to: seq<nat>, back: seq<nat>)
  {
    && |xs| == |ys| == |to| == |back|
    && (forall i | 0 <= i < |xs| :: to[i] < |xs| && back[i] < |xs| && back[to[i]] == i && to[back[i]] == i)
    && (forall i | 0 <= i < |ys| :: ys[i] == xs[to[i]])
  }

  lemma ReorderedKeyed(xs: seq<Value>, ys: seq<Value>, to: seq<nat>, back: seq<nat>, c: Setting)
    requires IsKeyed(xs, c) && Reordered(xs, ys, to, back)
    ensures IsKeyed(ys, c) && Segs(List(xs), ByOrder, c) == Segs(List(ys), ByOrder, c)
  {
    forall i, j | 0 <= i < j < |ys| ensures OrderOf(ys[i], c) != OrderOf(ys[j], c) {
      assert to[i] != to[j];
    }
    forall s ensures s in Segs(List(xs), ByOrder, c) <==> s in Segs(List(ys), ByOrder, c) {
      if s in Segs(List(xs), ByOrder, c) {
        var i :| 0 <= i < |xs| && s == Order(OrderOf(xs[i], c).value);
        assert ys[back[i]] == xs[i];
      }
      if s in Segs(List(ys), ByOrder, c) {
        var i :| 0 <= i < |ys| && s == Order(OrderOf(ys[i], c).value);
        assert ys[i] == xs[to[i]];
      }
    }
  }

  /** Entry by entry a dictionary that says which number it has, none twice. */
  ghost predicate Numbered(items: seq<Value>, numbers: seq<int>, c: Setting)
  {
    && items != [] && |numbers| == |items|
    && (forall i | 0 <= i < |items| :: HasNumber(items[i], numbers[i], c))
    && (forall i, j | 0 <= i < j < |items| :: numbers[i] != numbers[j])
  }

  ghost predicate HasNumber(v: Value, n: int, c: Setting)
  {
    v.Dict? && "order" in v.fields && exists tag :: v.fields["order"] == Scalar(tag) && c.asInt(tag) == Some(n)
  }

  lemma NumberedIsKeyed(items: seq<Value>, numbers: seq<int>, c: Setting)
    requires Numbered(items, numbers, c)
    ensures IsKeyed(items, c)
  {
    forall i | 0 <= i < |items| ensures OrderOf(items[i], c) == Some(numbers[i]) {
      assert HasNumber(items[i], numbers[i], c);
    }
  }

  /** Writing a list of numbered entries down in another order changes nothing: not one entry. */
  lemma ReorderingIsNoChange(xs: seq<Value>, ys: seq<Value>, numbers: seq<int>, to: seq<nat>, back: seq<nat>,
      path: Path, c: Setting)
    requires c.ignored == {} && Numbered(xs, numbers, c) && Reordered(xs, ys, to, back)
    ensures IsKeyed(ys, c) && Compare(List(xs), List(ys), path, c) == []
  {
    var x, y := List(xs), List(ys);
    NumberedIsKeyed(xs, numbers, c);
    ReorderedKeyed(xs, ys, to, back, c);
    forall s | s in Segs(x, ByOrder, c) ensures Same(Kid(x, ByOrder, s, c), Kid(y, ByOrder, s, c), c) {
      var i, j := Find(xs, s.order, c, 0), Find(ys, s.order, c, 0);
      assert ys[j] == xs[to[j]];
      assert to[j] == i;
    }
    SameByKids(x, y, ByOrder, c);
    EmptyExactlyWhenSame(x, y, path, c);
  }

  // ---- The mirror ----

  function Flip(e: Entry): Entry
  {
    match e.change
    case Added(now) => Entry(e.path, Removed(now))
    case Removed(was) => Entry(e.path, Added(was))
    case Changed(was, now) => Entry(e.path, Changed(now, was))
  }

  function Flipped(entries: seq<Entry>): seq<Entry>
  {
    seq(|entries|, i requires 0 <= i < |entries| => Flip(entries[i]))
  }

  lemma FlippedJoin(a: seq<Entry>, b: seq<Entry>)
    ensures Flipped(a + b) == Flipped(a) + Flipped(b)
  {
  }

  lemma KidMirror(x: Value, y: Value, m: Mode, s: Seg, path: Path, c: Setting)
    requires Fits(x, m, c) && Fits(y, m, c) && s in Segs(x, m, c) + Segs(y, m, c)
    ensures KidDiff(y, x, m, s, path, c) == Flipped(KidDiff(x, y, m, s, path, c))
    decreases x, 0
  {
    if s in Segs(x, m, c) && s in Segs(y, m, c) {
      CompareMirrors(Kid(x, m, s, c), Kid(y, m, s, c), path + [s], c);
    }
  }

  lemma {:induction false} KidsMirror(x: Value, y: Value, m: Mode, segs: seq<Seg>, path: Path, c: Setting)
    requires Fits(x, m, c) && Fits(y, m, c) && forall s | s in segs :: s in Segs(x, m, c) + Segs(y, m, c)
    ensures KidsDiff(y, x, m, segs, path, c) == Flipped(KidsDiff(x, y, m, segs, path, c))
    decreases x, 1, |segs|
  {
    if segs != [] {
      KidMirror(x, y, m, segs[0], path, c);
      KidsMirror(x, y, m, segs[1..], path, c);
      FlippedJoin(KidDiff(x, y, m, segs[0], path, c), KidsDiff(x, y, m, segs[1..], path, c));
    }
  }

  /** Comparing the other way round gives the mirror image, entry by entry, whatever keys are ignored. */
  lemma {:induction false} CompareMirrors(x: Value, y: Value, path: Path, c: Setting)
    ensures Compare(y, x, path, c) == Flipped(Compare(x, y, path, c))
    decreases x, 2
  {
    var m := ModeOf(x, y, c);
    assert ModeOf(y, x, c) == m;
    if m.Some? && (m.value == ByKey || x != y) {
      assert Segs(x, m.value, c) + Segs(y, m.value, c) == Segs(y, m.value, c) + Segs(x, m.value, c);
      KidsMirror(x, y, m.value, PartsOf(x, y, m.value, c), path, c);
    }
  }
}
