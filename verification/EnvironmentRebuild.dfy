/** The entries of a diff are enough to rebuild one environment from the other. */
module EnvironmentRebuild {
  import opened Messages
  import opened EnvironmentDiff
  import opened EnvironmentDiffLaws
  import opened Sequences

  /** The entries whose path goes through segment `s` at depth `d`. */
  function Through(entries: seq<Entry>, d: nat, s: Seg): seq<Entry>
  {
    if entries == [] then []
    else
      (if |entries[0].path| > d && entries[0].path[d] == s then [entries[0]] else []) + Through(entries[1..], d, s)
  }

  function Mentioned(entries: seq<Entry>, d: nat): set<Seg>
  {
    set e | e in entries && |e.path| > d :: e.path[d]
  }

  function ModeFor(s: Seg): Mode
  {
    match s
    case Key(_) => ByKey
    case Order(_) => ByOrder
    case Index(_) => ByIndex
  }

  /** One part, as the entries about it say. */
  function RebuildKid(x: Value, m: Mode, s: Seg, sub: seq<Entry>, d: nat, c: Setting): Option<Value>
    requires Fits(x, m, c)
    decreases x, 0
  {
    if sub != [] && |sub[0].path| == d + 1 && sub[0].change.Added? then Some(sub[0].change.now)
    else if sub != [] && |sub[0].path| == d + 1 && sub[0].change.Removed? then None
    else if s in Segs(x, m, c) then Some(Rebuild(Kid(x, m, s, c), sub, d + 1, c))
    else None
  }

  function RebuildKids(x: Value, m: Mode, segs: set<Seg>, entries: seq<Entry>, d: nat, c: Setting): map<Seg, Value>
    requires Fits(x, m, c)
    decreases x, 1
  {
    map s | s in segs && RebuildKid(x, m, s, Through(entries, d, s), d, c).Some? ::
      RebuildKid(x, m, s, Through(entries, d, s), d, c).value
  }

  /** A dictionary, an order-keyed list in the order of its keys, or a list of the old length. */
  function Assemble(x: Value, m: Mode, kids: map<Seg, Value>): Value
    requires m.ByIndex? ==> x.List?
  {
    match m
    case ByKey => Dict(map name | name in (set s | s in kids && s.Key? :: s.name) :: kids[Key(name)])
    case ByOrder =>
      List(seq(|Sorted(kids.Keys)|, i requires 0 <= i < |Sorted(kids.Keys)| => At(kids, Sorted(kids.Keys)[i])))
    case ByIndex => List(seq(|x.items|, i requires 0 <= i < |x.items| => At(kids, Index(i))))
  }

  function At(kids: map<Seg, Value>, s: Seg): Value
  {
    if s in kids then kids[s] else Scalar(0)
  }

  /** The other side, from this side and the entries alone. */
  function Rebuild(x: Value, entries: seq<Entry>, d: nat, c: Setting): Value
    decreases x, 2
  {
    if entries == [] then x
    else if |entries[0].path| <= d then (if entries[0].change.Removed? then x else entries[0].change.now)
    else
      var m := ModeFor(entries[0].path[d]);
      if !Fits(x, m, c) then x
      else Assemble(x, m, RebuildKids(x, m, Segs(x, m, c) + Mentioned(entries, d), entries, d, c))
  }

  // ---- Entries find their part by their path ----

  ghost predicate Below(entries: seq<Entry>, path: Path)
  {
    forall e | e in entries :: path <= e.path
  }

  lemma KidBelow(x: Value, y: Value, m: Mode, s: Seg, path: Path, c: Setting)
    requires Fits(x, m, c) && Fits(y, m, c) && s in Segs(x, m, c) + Segs(y, m, c)
    ensures Below(KidDiff(x, y, m, s, path, c), path + [s])
    decreases x, 0
  {
    if s in Segs(x, m, c) && s in Segs(y, m, c) {
      CompareBelow(Kid(x, m, s, c), Kid(y, m, s, c), path + [s], c);
    }
  }

  lemma {:induction false} KidsBelow(x: Value, y: Value, m: Mode, segs: seq<Seg>, path: Path, c: Setting)
    requires Fits(x, m, c) && Fits(y, m, c) && forall s | s in segs :: s in Segs(x, m, c) + Segs(y, m, c)
    ensures Below(KidsDiff(x, y, m, segs, path, c), path)
    decreases x, 1, |segs|
  {
    if segs != [] {
      KidBelow(x, y, m, segs[0], path, c);
      KidsBelow(x, y, m, segs[1..], path, c);
      forall e | e in KidDiff(x, y, m, segs[0], path, c) ensures path <= e.path {
        assert path + [segs[0]] <= e.path;
      }
    }
  }

  lemma {:induction false} CompareBelow(x: Value, y: Value, path: Path, c: Setting)
    ensures Below(Compare(x, y, path, c), path)
    decreases x, 2
  {
    var m := ModeOf(x, y, c);
    if m.Some? && (m.value == ByKey || x != y) {
      KidsBelow(x, y, m.value, PartsOf(x, y, m.value, c), path, c);
    }
  }

  lemma {:induction false} ThroughJoin(a: seq<Entry>, b: seq<Entry>, d: nat, s: Seg)
    ensures Through(a + b, d, s) == Through(a, d, s) + Through(b, d, s)
  {
    if a == [] {
      assert a + b == b;
    } else {
      FirstOfJoin(a, b);
      ThroughJoin(a[1..], b, d, s);
      Regroup(if |a[0].path| > d && a[0].path[d] == s then [a[0]] else [], Through(a[1..], d, s), Through(b, d, s));
    }
  }

  lemma {:induction false} ThroughBelow(entries: seq<Entry>, path: Path, t: Seg, s: Seg)
    requires Below(entries, path + [t])
    ensures Through(entries, |path|, s) == if s == t then entries else []
  {
    if entries != [] {
      assert entries[0] in entries && path + [t] <= entries[0].path;
      assert (path + [t])[|path|] == t == entries[0].path[|path|];
      assert forall e | e in entries[1..] :: e in entries;
      ThroughBelow(entries[1..], path, t, s);
    }
  }

  /** Out of all entries, those about one part are exactly that part's. */
  lemma {:induction false} ThroughKids(x: Value, y: Value, m: Mode, segs: seq<Seg>, path: Path, s: Seg, c: Setting)
    requires Fits(x, m, c) && Fits(y, m, c) && (forall t | t in segs :: t in Segs(x, m, c) + Segs(y, m, c))
    requires Distinct(segs)
    ensures Through(KidsDiff(x, y, m, segs, path, c), |path|, s) ==
      if s in segs then KidDiff(x, y, m, s, path, c) else []
    decreases |segs|
  {
    if segs != [] {
      var t, rest := segs[0], segs[1..];
      KidBelow(x, y, m, t, path, c);
      ThroughBelow(KidDiff(x, y, m, t, path, c), path, t, s);
      ThroughKids(x, y, m, rest, path, s, c);
      ThroughJoin(KidDiff(x, y, m, t, path, c), KidsDiff(x, y, m, rest, path, c), |path|, s);
      HeadNotInTail(segs);
    }
  }

  lemma HeadNotInTail(segs: seq<Seg>)
    requires segs != [] && Distinct(segs)
    ensures segs[0] !in segs[1..] && Distinct(segs[1..])
  {
  }

  lemma MentionedJoin(a: seq<Entry>, b: seq<Entry>, d: nat)
    ensures Mentioned(a + b, d) == Mentioned(a, d) + Mentioned(b, d)
  {
  }

  lemma MentionedBelow(entries: seq<Entry>, path: Path, s: Seg)
    requires Below(entries, path + [s])
    ensures forall e | e in entries :: |e.path| > |path| && e.path[|path|] == s
    ensures Mentioned(entries, |path|) == if entries == [] then {} else {s}
  {
    forall e | e in entries ensures |e.path| > |path| && e.path[|path|] == s {
      assert path + [s] <= e.path && (path + [s])[|path|] == s;
    }
    if entries != [] {
      assert entries[0] in entries;
    }
  }

  /** The parts that entries mention are exactly the parts that differ. */
  lemma {:induction false} MentionedKids(x: Value, y: Value, m: Mode, segs: seq<Seg>, path: Path, c: Setting)
    requires Fits(x, m, c) && Fits(y, m, c) && forall t | t in segs :: t in Segs(x, m, c) + Segs(y, m, c)
    ensures forall e | e in KidsDiff(x, y, m, segs, path, c) :: |e.path| > |path|
    ensures forall s :: s in Mentioned(KidsDiff(x, y, m, segs, path, c), |path|) <==>
      s in segs && KidDiff(x, y, m, s, path, c) != []
    decreases |segs|
  {
    if segs != [] {
      var first, rest := KidDiff(x, y, m, segs[0], path, c), KidsDiff(x, y, m, segs[1..], path, c);
      KidBelow(x, y, m, segs[0], path, c);
      MentionedBelow(first, path, segs[0]);
      MentionedKids(x, y, m, segs[1..], path, c);
      MentionedJoin(first, rest, |path|);
      assert forall s :: s in segs <==> s == segs[0] || s in segs[1..];
    }
  }

  // ---- The order of the entries ----

  /** The parts that entries are about come in ascending order. */
  ghost predicate Ascending(entries: seq<Entry>, d: nat)
  {
    && (forall e | e in entries :: |e.path| > d)
    && forall i, j | 0 <= i < j < |entries| :: Le(entries[i].path[d], entries[j].path[d])
  }

  lemma AscendingJoin(a: seq<Entry>, b: seq<Entry>, d: nat, s: Seg)
    requires (forall e | e in a :: |e.path| > d && e.path[d] == s) && Ascending(b, d)
    requires forall e | e in b :: Le(s, e.path[d])
    ensures Ascending(a + b, d)
  {
    var all := a + b;
    LeOrder(s, s, s);
    forall i, j | 0 <= i < j < |all| ensures Le(all[i].path[d], all[j].path[d]) {
      assert if i < |a| then all[i] == a[i] && a[i] in a else all[i] == b[i - |a|];
      assert if j < |a| then all[j] == a[j] && a[j] in a else all[j] == b[j - |a|] && b[j - |a|] in b;
    }
  }

  lemma {:induction false} KidsAscend(x: Value, y: Value, m: Mode, segs: seq<Seg>, path: Path, c: Setting)
    requires Fits(x, m, c) && Fits(y, m, c) && forall t | t in segs :: t in Segs(x, m, c) + Segs(y, m, c)
    requires forall i, j | 0 <= i < j < |segs| :: Le(segs[i], segs[j])
    ensures Ascending(KidsDiff(x, y, m, segs, path, c), |path|)
    decreases |segs|
  {
    if segs != [] {
      var first, rest := KidDiff(x, y, m, segs[0], path, c), KidsDiff(x, y, m, segs[1..], path, c);
      KidBelow(x, y, m, segs[0], path, c);
      MentionedBelow(first, path, segs[0]);
      MentionedKids(x, y, m, segs[1..], path, c);
      KidsAscend(x, y, m, segs[1..], path, c);
      forall e | e in rest ensures Le(segs[0], e.path[|path|]) {
        assert e.path[|path|] in Mentioned(rest, |path|);
        var k :| 0 <= k < |segs[1..]| && segs[1..][k] == e.path[|path|];
        assert segs[k + 1] == e.path[|path|];
      }
      AscendingJoin(first, rest, |path|, segs[0]);
    }
  }

  /** Entries are listed by their keys, orders or positions, ascending; those about one part by its own parts. */
  lemma EntriesAreInOrder(x: Value, y: Value, path: Path, c: Setting)
    requires ModeOf(x, y, c).Some? && x != y
    ensures Ascending(Compare(x, y, path, c), |path|)
  {
    var m := ModeOf(x, y, c).value;
    var parts := PartsOf(x, y, m, c);
    forall i, j | 0 <= i < j < |parts| ensures Le(parts[i], parts[j]) {
      SortedIsAscending(Segs(x, m, c) + Segs(y, m, c), i, j);
    }
    KidsAscend(x, y, m, parts, path, c);
  }

  // ---- Assembling the parts ----

  /** The rebuilt parts are the other side's parts: the same segments, each with the same value. */
  ghost predicate Rebuilt(kids: map<Seg, Value>, y: Value, m: Mode, c: Setting)
    requires Fits(y, m, c)
  {
    kids.Keys == Segs(y, m, c) && forall s | s in kids :: Same(kids[s], Kid(y, m, s, c), c)
  }

  lemma AssembledDict(x: Value, kids: map<Seg, Value>, y: Value, c: Setting)
    requires Fits(y, ByKey, c) && Rebuilt(kids, y, ByKey, c)
    ensures Same(Assemble(x, ByKey, kids), y, c)
  {
    var r := Assemble(x, ByKey, kids);
    forall s ensures s in Segs(r, ByKey, c) <==> s in Segs(y, ByKey, c) {
      if s in Segs(y, ByKey, c) {
        assert s in kids && s.Key?;
      }
    }
    SameByKids(r, y, ByKey, c);
  }

  lemma AssembledItems(kids: map<Seg, Value>, y: Value, c: Setting, i: nat)
    requires Fits(y, ByOrder, c) && Rebuilt(kids, y, ByOrder, c) && i < |Sorted(kids.Keys)|
    ensures
      var s := Sorted(kids.Keys)[i];
      s in kids && s.Order? && OrderOf(kids[s], c) == Some(s.order) && At(kids, s) == kids[s]
  {
    SortedMembers(kids.Keys);
    var s := Sorted(kids.Keys)[i];
    assert s in Sorted(kids.Keys);
    SameSym(kids[s], Kid(y, ByOrder, s, c), c);
    SameOrder(Kid(y, ByOrder, s, c), kids[s], c);
  }

  lemma SameSym(x: Value, y: Value, c: Setting)
    requires Same(x, y, c)
    ensures Same(y, x, c)
  {
  }

  /** `items` are the parts listed by `segs`, each an entry with that order. */
  ghost predicate Listed(items: seq<Value>, segs: seq<Seg>, kids: map<Seg, Value>, c: Setting)
  {
    && |items| == |segs|
    && forall i | 0 <= i < |segs| ::
         segs[i].Order? && OrderOf(items[i], c) == Some(segs[i].order) && segs[i] in kids && items[i] == kids[segs[i]]
  }

  lemma AssembledAreListed(x: Value, kids: map<Seg, Value>, y: Value, c: Setting)
    requires Fits(y, ByOrder, c) && Rebuilt(kids, y, ByOrder, c)
    ensures Listed(Assemble(x, ByOrder, kids).items, Sorted(kids.Keys), kids, c)
  {
    forall i | 0 <= i < |Sorted(kids.Keys)|
      ensures
        var s := Sorted(kids.Keys)[i];
        s in kids && s.Order? && OrderOf(kids[s], c) == Some(s.order) && At(kids, s) == kids[s]
    {
      AssembledItems(kids, y, c, i);
    }
  }

  lemma ListedKid(items: seq<Value>, segs: seq<Seg>, kids: map<Seg, Value>, s: Seg, c: Setting)
    requires Listed(items, segs, kids, c) && IsKeyed(items, c) && s in Segs(List(items), ByOrder, c)
    ensures s in kids && Kid(List(items), ByOrder, s, c) == kids[s]
  {
    var i := Find(items, s.order, c, 0);
    assert segs[i] == s;
  }

  lemma AssembledKeyed(x: Value, kids: map<Seg, Value>, y: Value, c: Setting)
    requires Fits(y, ByOrder, c) && Rebuilt(kids, y, ByOrder, c)
    ensures Same(Assemble(x, ByOrder, kids), y, c)
  {
    var r, segs := Assemble(x, ByOrder, kids), Sorted(kids.Keys);
    SortedMembers(kids.Keys);
    SortedIsDistinct(kids.Keys);
    AssembledAreListed(x, kids, y, c);
    KeyedBySegs(r.items, segs, y, c);
    forall s | s in Segs(y, ByOrder, c) ensures Same(Kid(r, ByOrder, s, c), Kid(y, ByOrder, s, c), c) {
      ListedKid(r.items, segs, kids, s, c);
    }
    SameByKids(r, y, ByOrder, c);
  }

  lemma KeyedBySegs(items: seq<Value>, segs: seq<Seg>, y: Value, c: Setting)
    requires Fits(y, ByOrder, c) && Distinct(segs) && forall s :: s in segs <==> s in Segs(y, ByOrder, c)
    requires |items| == |segs|
    requires forall i | 0 <= i < |segs| :: segs[i].Order? && OrderOf(items[i], c) == Some(segs[i].order)
    ensures IsKeyed(items, c) && Segs(List(items), ByOrder, c) == Segs(y, ByOrder, c)
  {
    assert Order(OrderOf(y.items[0], c).value) in Segs(y, ByOrder, c);
    assert segs != [];
    forall s ensures s in Segs(List(items), ByOrder, c) <==> s in Segs(y, ByOrder, c) {
      if s in segs {
        var i :| 0 <= i < |segs| && segs[i] == s;
        assert Order(OrderOf(items[i], c).value) == s;
      }
      if s in Segs(List(items), ByOrder, c) {
        var i :| 0 <= i < |items| && Order(OrderOf(items[i], c).value) == s;
        assert segs[i] == s;
      }
    }
  }

  /** Lists of the same entries, position by position, are the same, order-keyed or not. */
  lemma SameItemsSameList(xs: seq<Value>, ys: seq<Value>, c: Setting)
    requires ItemsSame(xs, ys, c)
    ensures Same(List(xs), List(ys), c)
  {
    SameItemsSameOrders(xs, ys, c);
    var x, y := List(xs), List(ys);
    if IsKeyed(xs, c) {
      forall s ensures s in Segs(x, ByOrder, c) <==> s in Segs(y, ByOrder, c) {
        if s in Segs(x, ByOrder, c) {
          var i :| 0 <= i < |xs| && s == Order(OrderOf(xs[i], c).value);
          assert s == Order(OrderOf(ys[i], c).value);
        }
        if s in Segs(y, ByOrder, c) {
          var i :| 0 <= i < |ys| && s == Order(OrderOf(ys[i], c).value);
          assert s == Order(OrderOf(xs[i], c).value);
        }
      }
      forall s | s in Segs(x, ByOrder, c) ensures Same(Kid(x, ByOrder, s, c), Kid(y, ByOrder, s, c), c) {
        var i, j := Find(xs, s.order, c, 0), Find(ys, s.order, c, 0);
        assert OrderOf(xs[i], c) == OrderOf(xs[j], c);
        assert i == j;
      }
      SameByKids(x, y, ByOrder, c);
    } else {
      forall s | s in Segs(x, ByIndex, c) ensures Same(Kid(x, ByIndex, s, c), Kid(y, ByIndex, s, c), c) {
      }
      SameByKids(x, y, ByIndex, c);
    }
  }

  lemma AssembledList(x: Value, kids: map<Seg, Value>, y: Value, c: Setting)
    requires Fits(y, ByIndex, c) && x.List? && |x.items| == |y.items| && Rebuilt(kids, y, ByIndex, c)
    ensures Same(Assemble(x, ByIndex, kids), y, c)
  {
    var r := Assemble(x, ByIndex, kids);
    forall i | 0 <= i < |y.items| ensures y.items[i].Dict? && Same(y.items[i], r.items[i], c) {
      assert Index(i) in Segs(y, ByIndex, c) && Kid(y, ByIndex, Index(i), c) == y.items[i];
    }
    SameItemsSameList(y.items, r.items, c);
  }

  lemma Assembled(x: Value, m: Mode, kids: map<Seg, Value>, y: Value, c: Setting)
    requires Fits(y, m, c) && Rebuilt(kids, y, m, c) && (m == ByIndex ==> x.List? && |x.items| == |y.items|)
    ensures Same(Assemble(x, m, kids), y, c)
  {
    match m
    case ByKey => AssembledDict(x, kids, y, c);
    case ByOrder => AssembledKeyed(x, kids, y, c);
    case ByIndex => AssembledList(x, kids, y, c);
  }

  // ---- The rebuild ----

  lemma GoesOn(x: Value, m: Mode, s: Seg, sub: seq<Entry>, d: nat, c: Setting)
    requires Fits(x, m, c) && s in Segs(x, m, c)
    requires sub != [] && |sub[0].path| == d + 1 ==> sub[0].change.Changed?
    ensures RebuildKid(x, m, s, sub, d, c) == Some(Rebuild(Kid(x, m, s, c), sub, d + 1, c))
  {
  }

  /** What the entries say of one part: the other side's value, or that it is gone. */
  ghost predicate PartRebuilt(kid: Option<Value>, y: Value, m: Mode, s: Seg, c: Setting)
    requires Fits(y, m, c)
  {
    if s in Segs(y, m, c) then kid.Some? && Same(kid.value, Kid(y, m, s, c), c) else kid.None?
  }

  lemma OneSided(x: Value, y: Value, m: Mode, s: Seg, path: Path, c: Setting)
    requires c.ignored == {} && Fits(x, m, c) && Fits(y, m, c)
    requires s in Segs(x, m, c) <==> s !in Segs(y, m, c)
    ensures PartRebuilt(RebuildKid(x, m, s, KidDiff(x, y, m, s, path, c), |path|, c), y, m, s, c)
  {
  }

  lemma BothSided(x: Value, y: Value, m: Mode, s: Seg, here: Path, sub: seq<Entry>, c: Setting)
    requires c.ignored == {} && Fits(x, m, c) && Fits(y, m, c) && s in Segs(x, m, c) && s in Segs(y, m, c)
    requires here != [] && sub == Compare(Kid(x, m, s, c), Kid(y, m, s, c), here, c)
    requires Same(Rebuild(Kid(x, m, s, c), sub, |here|, c), Kid(y, m, s, c), c)
    ensures PartRebuilt(RebuildKid(x, m, s, sub, |here| - 1, c), y, m, s, c)
  {
    NoWholeChange(Kid(x, m, s, c), Kid(y, m, s, c), here, c);
    GoesOn(x, m, s, sub, |here| - 1, c);
  }

  lemma KidRebuilt(x: Value, y: Value, m: Mode, s: Seg, path: Path, c: Setting)
    requires c.ignored == {} && Fits(x, m, c) && Fits(y, m, c) && s in Segs(x, m, c) + Segs(y, m, c)
    ensures PartRebuilt(RebuildKid(x, m, s, KidDiff(x, y, m, s, path, c), |path|, c), y, m, s, c)
    decreases x, 0
  {
    if s in Segs(x, m, c) && s in Segs(y, m, c) {
      RebuildsTheOther(Kid(x, m, s, c), Kid(y, m, s, c), path + [s], c);
      BothSided(x, y, m, s, path + [s], KidDiff(x, y, m, s, path, c), c);
    } else {
      OneSided(x, y, m, s, path, c);
    }
  }

  /** Comparing two values that are both there never reports either as added or removed as a whole. */
  lemma NoWholeChange(x: Value, y: Value, path: Path, c: Setting)
    ensures
      var entries := Compare(x, y, path, c);
      entries != [] && |entries[0].path| == |path| ==> entries[0].change.Changed?
  {
    var m := ModeOf(x, y, c);
    if m.Some? && (m.value == ByKey || x != y) {
      var parts := PartsOf(x, y, m.value, c);
      MentionedKids(x, y, m.value, parts, path, c);
      var entries := KidsDiff(x, y, m.value, parts, path, c);
      assert entries != [] ==> entries[0] in entries;
    }
  }

  lemma AddedShows(x: Value, y: Value, m: Mode, s: Seg, path: Path, c: Setting)
    requires c.ignored == {} && Fits(x, m, c) && Fits(y, m, c) && s in Segs(y, m, c) && s !in Segs(x, m, c)
    ensures KidDiff(x, y, m, s, path, c) != []
  {
  }

  lemma NothingUnmentioned(x: Value, y: Value, m: Mode, parts: seq<Seg>, path: Path, c: Setting)
    requires c.ignored == {} && Fits(x, m, c) && Fits(y, m, c)
    requires forall s :: s in parts <==> s in Segs(x, m, c) + Segs(y, m, c)
    ensures forall s | s in Segs(y, m, c) && s !in Segs(x, m, c) ::
      s in Mentioned(KidsDiff(x, y, m, parts, path, c), |path|)
    ensures forall s | s in Mentioned(KidsDiff(x, y, m, parts, path, c), |path|) :: s in parts
  {
    MentionedKids(x, y, m, parts, path, c);
    forall s | s in Segs(y, m, c) && s !in Segs(x, m, c)
      ensures s in Mentioned(KidsDiff(x, y, m, parts, path, c), |path|)
    {
      AddedShows(x, y, m, s, path, c);
    }
  }

  lemma KidsRebuilt(x: Value, y: Value, m: Mode, path: Path, c: Setting)
    requires c.ignored == {} && Fits(x, m, c) && Fits(y, m, c)
    ensures
      var entries := KidsDiff(x, y, m, PartsOf(x, y, m, c), path, c);
      Rebuilt(RebuildKids(x, m, Segs(x, m, c) + Mentioned(entries, |path|), entries, |path|, c), y, m, c)
    decreases x, 1
  {
    var both, parts := Segs(x, m, c) + Segs(y, m, c), PartsOf(x, y, m, c);
    var entries := KidsDiff(x, y, m, parts, path, c);
    SortedMembers(both);
    SortedIsDistinct(both);
    NothingUnmentioned(x, y, m, parts, path, c);
    assert Segs(x, m, c) + Mentioned(entries, |path|) == both;
    forall s | s in both ensures PartRebuilt(RebuildKid(x, m, s, Through(entries, |path|, s), |path|, c), y, m, s, c) {
      ThroughKids(x, y, m, parts, path, s, c);
      KidRebuilt(x, y, m, s, path, c);
    }
    AllRebuilt(x, y, m, both, entries, |path|, c);
  }

  lemma AllRebuilt(x: Value, y: Value, m: Mode, both: set<Seg>, entries: seq<Entry>, d: nat, c: Setting)
    requires Fits(x, m, c) && Fits(y, m, c) && Segs(y, m, c) <= both
    requires forall s | s in both :: PartRebuilt(RebuildKid(x, m, s, Through(entries, d, s), d, c), y, m, s, c)
    ensures Rebuilt(RebuildKids(x, m, both, entries, d, c), y, m, c)
  {
  }

  /**
   With no ignored keys, one side and the entries of the diff give back the other side, up to the order
   of order-keyed lists.
   */
  lemma {:induction false} RebuildsTheOther(x: Value, y: Value, path: Path, c: Setting)
    requires c.ignored == {}
    ensures Same(Rebuild(x, Compare(x, y, path, c), |path|, c), y, c)
    decreases x, 2
  {
    var m, entries := ModeOf(x, y, c), Compare(x, y, path, c);
    if entries == [] {
      EmptyExactlyWhenSame(x, y, path, c);
    } else if m.Some? && (m.value == ByKey || x != y) {
      var parts := PartsOf(x, y, m.value, c);
      MentionedKids(x, y, m.value, parts, path, c);
      assert entries[0] in entries && entries[0].path[|path|] in Mentioned(entries, |path|);
      PartsHaveTheMode(x, y, m.value, entries[0].path[|path|], c);
      KidsRebuilt(x, y, m.value, path, c);
      Assembled(x, m.value,
        RebuildKids(x, m.value, Segs(x, m.value, c) + Mentioned(entries, |path|), entries, |path|, c), y, c);
    }
  }

  lemma PartsHaveTheMode(x: Value, y: Value, m: Mode, s: Seg, c: Setting)
    requires Fits(x, m, c) && Fits(y, m, c) && s in PartsOf(x, y, m, c)
    ensures ModeFor(s) == m
  {
    SortedMembers(Segs(x, m, c) + Segs(y, m, c));
  }
}
