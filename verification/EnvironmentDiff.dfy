/**
 Deep comparison of two environment snapshots (src/xgen_agent_runtime/core/diff.py). Scalars are the
 classes that compare equal. An entry carries its path as a sequence of segments; what is reported, and
 matched against the keys to ignore, is the path printed as one string.
 */
module EnvironmentDiff {
  import opened Decimals
  import opened Messages

  datatype Value = Scalar(tag: int) | List(items: seq<Value>) | Dict(fields: map<string, Value>)

  datatype Seg = Key(name: string) | Order(order: int) | Index(index: nat)

  type Path = seq<Seg>

  datatype Change = Added(now: Value) | Removed(was: Value) | Changed(was: Value, now: Value)

  datatype Entry = Entry(path: Path, change: Change)

  /** One difference as the diff lists it. */
  datatype Report = Report(path: string, change: Change)

  /** How scalars convert to integers, and the printed paths a comparison skips. */
  datatype Setting = Setting(asInt: int -> Option<int>, ignored: set<string>)

  // ---- Printed paths ----

  /** What a further segment adds to the path. */
  function Token(s: Seg): (t: string)
    ensures t != "" && (t[0] == '.' || t[0] == '[') && (t[0] == '.' <==> s.Key?)
  {
    match s
    case Key(name) => "." + name
    case Order(order) => "[order=" + Decimal(order) + "]"
    case Index(index) => "[" + Decimal(index) + "]"
  }

  /** The first key stands without a dot; a key whose path so far printed as nothing does too. */
  function Extend(prefix: string, s: Seg): string
  {
    if s.Key? && prefix == "" then s.name else prefix + Token(s)
  }

  function Print(path: Path): string
  {
    if path == [] then "" else Extend(Print(path[..|path| - 1]), path[|path| - 1])
  }

  function Reports(entries: seq<Entry>): seq<Report>
  {
    seq(|entries|, i requires 0 <= i < |entries| => Report(Print(entries[i].path), entries[i].change))
  }

  lemma PrintOneMore(path: Path, s: Seg)
    ensures Print(path + [s]) == Extend(Print(path), s)
  {
    assert (path + [s])[..|path|] == path;
  }

  lemma ReportsJoin(a: seq<Entry>, b: seq<Entry>)
    ensures Reports(a + b) == Reports(a) + Reports(b)
  {
  }

  // ---- Sorted keys ----

  predicate LexLe(a: string, b: string)
  {
    if a == [] then true
    else if b == [] then false
    else a[0] < b[0] || (a[0] == b[0] && LexLe(a[1..], b[1..]))
  }

  predicate Le(s: Seg, t: Seg)
  {
    match (s, t)
    case (Key(a), Key(b)) => LexLe(a, b)
    case (Key(_), _) => true
    case (Order(m), Order(n)) => m <= n
    case (Order(_), Index(_)) => true
    case (Index(i), Index(j)) => i <= j
    case (_, _) => false
  }

  lemma {:induction false} LexOrder(a: string, b: string, c: string)
    ensures LexLe(a, b) || LexLe(b, a)
    ensures LexLe(a, b) && LexLe(b, a) ==> a == b
    ensures LexLe(a, b) && LexLe(b, c) ==> LexLe(a, c)
  {
    if a != [] && b != [] {
      LexOrder(a[1..], b[1..], if c != [] then c[1..] else []);
      if LexLe(a, b) && LexLe(b, a) {
        assert a == [a[0]] + a[1..] && b == [b[0]] + b[1..];
      }
    }
  }

  lemma LeOrder(s: Seg, t: Seg, u: Seg)
    ensures Le(s, t) || Le(t, s)
    ensures Le(s, t) && Le(t, s) ==> s == t
    ensures Le(s, t) && Le(t, u) ==> Le(s, u)
  {
    if s.Key? && t.Key? {
      LexOrder(s.name, t.name, if u.Key? then u.name else "");
    }
  }

  predicate IsLeast(m: Seg, segs: set<Seg>)
  {
    m in segs && forall s | s in segs :: Le(m, s)
  }

  lemma {:induction false} HasLeast(segs: set<Seg>)
    requires segs != {}
    ensures exists m :: IsLeast(m, segs)
    decreases |segs|
  {
    var m :| m in segs;
    var rest := segs - {m};
    LeOrder(m, m, m);
    if rest == {} {
      assert segs == {m};
      assert IsLeast(m, segs);
    } else {
      HasLeast(rest);
      var n :| IsLeast(n, rest);
      var least := if Le(m, n) then m else n;
      forall s | s in segs ensures Le(least, s) {
        LeOrder(m, n, s);
        LeOrder(least, s, s);
      }
      assert IsLeast(least, segs);
    }
  }

  lemma LeastIsUnique(segs: set<Seg>)
    ensures forall m, n | IsLeast(m, segs) && IsLeast(n, segs) :: m == n
  {
    forall m, n | IsLeast(m, segs) && IsLeast(n, segs) ensures m == n {
      LeOrder(m, n, n);
    }
  }

  function Least(segs: set<Seg>): (m: Seg)
    requires segs != {}
    ensures IsLeast(m, segs)
  {
    HasLeast(segs);
    LeastIsUnique(segs);
    var m :| m in segs && IsLeast(m, segs);
    m
  }

  /** The members of a set, in order. */
  function Sorted(segs: set<Seg>): (r: seq<Seg>)
    decreases |segs|
  {
    if segs == {} then [] else [Least(segs)] + Sorted(segs - {Least(segs)})
  }

  ghost predicate Distinct(segs: seq<Seg>)
  {
    forall i, j | 0 <= i < j < |segs| :: segs[i] != segs[j]
  }

  lemma {:induction false} SortedMembers(segs: set<Seg>)
    ensures forall s :: s in Sorted(segs) <==> s in segs
    decreases |segs|
  {
    if segs != {} {
      SortedMembers(segs - {Least(segs)});
    }
  }

  lemma InFront(m: Seg, rest: seq<Seg>)
    requires Distinct(rest) && m !in rest
    ensures Distinct([m] + rest)
  {
  }

  lemma {:induction false} SortedIsDistinct(segs: set<Seg>)
    ensures Distinct(Sorted(segs))
    decreases |segs|
  {
    if segs != {} {
      var m := Least(segs);
      SortedIsDistinct(segs - {m});
      SortedMembers(segs - {m});
      InFront(m, Sorted(segs - {m}));
    }
  }

  /** Sorted means sorted: each member comes before the later ones. */
  lemma {:induction false} SortedIsAscending(segs: set<Seg>, i: nat, j: nat)
    requires i < j < |Sorted(segs)|
    ensures Le(Sorted(segs)[i], Sorted(segs)[j])
    decreases |segs|
  {
    var m := Least(segs);
    if i == 0 {
      SortedMembers(segs - {m});
      var later := Sorted(segs - {m})[j - 1];
      assert later in Sorted(segs - {m}) && IsLeast(m, segs);
      assert Sorted(segs)[0] == m && Sorted(segs)[j] == later;
    } else {
      SortedIsAscending(segs - {m}, i - 1, j - 1);
    }
  }

  // ---- How a pair of values is broken down ----

  datatype Mode = ByKey | ByOrder | ByIndex

  function OrderOf(v: Value, c: Setting): Option<int>
  {
    if v.Dict? && "order" in v.fields && v.fields["order"].Scalar? then c.asInt(v.fields["order"].tag) else None
  }

  /** An order-keyed entity list: entries with pairwise different orders, and at least one of them. */
  predicate IsKeyed(items: seq<Value>, c: Setting)
  {
    && items != []
    && (forall i | 0 <= i < |items| :: OrderOf(items[i], c).Some?)
    && (forall i, j | 0 <= i < j < |items| :: OrderOf(items[i], c) != OrderOf(items[j], c))
  }

  predicate AllDicts(items: seq<Value>) { forall i | 0 <= i < |items| :: items[i].Dict? }

  predicate Fits(v: Value, m: Mode, c: Setting)
  {
    match m
    case ByKey => v.Dict?
    case ByOrder => v.List? && IsKeyed(v.items, c)
    case ByIndex => v.List? && AllDicts(v.items)
  }

  /** How two values are compared part by part, if they are. */
  function ModeOf(x: Value, y: Value, c: Setting): Option<Mode>
  {
    if x.Dict? && y.Dict? then Some(ByKey)
    else if !x.List? || !y.List? then None
    else if IsKeyed(x.items, c) && IsKeyed(y.items, c) then Some(ByOrder)
    else if |x.items| == |y.items| && AllDicts(x.items) && AllDicts(y.items) then Some(ByIndex)
    else None
  }

  function Segs(v: Value, m: Mode, c: Setting): set<Seg>
    requires Fits(v, m, c)
  {
    match m
    case ByKey => set k | k in v.fields :: Key(k)
    case ByOrder => set i | 0 <= i < |v.items| :: Order(OrderOf(v.items[i], c).value)
    case ByIndex => set i | 0 <= i < |v.items| :: Index(i)
  }

  /** Position of the entry with this order. */
  function Find(items: seq<Value>, n: int, c: Setting, from: nat): (i: nat)
    requires exists j :: from <= j < |items| && OrderOf(items[j], c) == Some(n)
    ensures from <= i < |items| && OrderOf(items[i], c) == Some(n)
    decreases |items| - from
  {
    if OrderOf(items[from], c) == Some(n) then from else Find(items, n, c, from + 1)
  }

  function Kid(v: Value, m: Mode, s: Seg, c: Setting): (r: Value)
    requires Fits(v, m, c) && s in Segs(v, m, c)
    ensures r < v
    ensures m.ByOrder? ==> OrderOf(r, c) == Some(s.order)
    ensures !m.ByKey? ==> r.Dict?
  {
    match m
    case ByKey => v.fields[s.name]
    case ByOrder => v.items[Find(v.items, s.order, c, 0)]
    case ByIndex => v.items[s.index]
  }

  // ---- The comparison ----

  /** What one part contributes: it was added, removed, or is compared in turn. */
  function KidDiff(x: Value, y: Value, m: Mode, s: Seg, path: Path, c: Setting): seq<Entry>
    requires Fits(x, m, c) && Fits(y, m, c) && s in Segs(x, m, c) + Segs(y, m, c)
    decreases x, 0
  {
    var here := path + [s];
    if s.Key? && Print(here) in c.ignored then []
    else if s !in Segs(x, m, c) then [Entry(here, Added(Kid(y, m, s, c)))]
    else if s !in Segs(y, m, c) then [Entry(here, Removed(Kid(x, m, s, c)))]
    else Compare(Kid(x, m, s, c), Kid(y, m, s, c), here, c)
  }

  function KidsDiff(x: Value, y: Value, m: Mode, segs: seq<Seg>, path: Path, c: Setting): seq<Entry>
    requires Fits(x, m, c) && Fits(y, m, c) && forall s | s in segs :: s in Segs(x, m, c) + Segs(y, m, c)
    decreases x, 1, |segs|
  {
    if segs == [] then []
    else KidDiff(x, y, m, segs[0], path, c) + KidsDiff(x, y, m, segs[1..], path, c)
  }

  function PartsOf(x: Value, y: Value, m: Mode, c: Setting): (r: seq<Seg>)
    requires Fits(x, m, c) && Fits(y, m, c)
    ensures forall s | s in r :: s in Segs(x, m, c) + Segs(y, m, c)
  {
    SortedMembers(Segs(x, m, c) + Segs(y, m, c));
    Sorted(Segs(x, m, c) + Segs(y, m, c))
  }

  function Compare(x: Value, y: Value, path: Path, c: Setting): seq<Entry>
    decreases x, 2
  {
    var m := ModeOf(x, y, c);
    if m.Some? && (m.value.ByKey? || x != y) then KidsDiff(x, y, m.value, PartsOf(x, y, m.value, c), path, c)
    else if x == y then []
    else [Entry(path, Changed(x, y))]
  }

  // ---- The comparison as it runs: local lists filled in loops ----

  /** Order to entry, when the list qualifies; entries without an order, or twice the same, disqualify it. */
  method OrderKeyed(items: seq<Value>, c: Setting) returns (keyed: Option<map<int, Value>>)
    ensures keyed.Some? <==> IsKeyed(items, c)
    ensures keyed.Some? ==>
      && (set n | n in keyed.value :: Order(n)) == Segs(List(items), ByOrder, c)
      && forall n | n in keyed.value :: keyed.value[n] == Kid(List(items), ByOrder, Order(n), c)
  {
    if items == [] {
      return None;
    }
    var found: map<int, Value> := map[];
    var i := 0;
    while i < |items|
      invariant 0 <= i <= |items|
      invariant forall k | 0 <= k < i ::
        && OrderOf(items[k], c).Some? && OrderOf(items[k], c).value in found
        && found[OrderOf(items[k], c).value] == items[k]
      invariant forall n | n in found :: HasOrder(items[..i], n, c)
      invariant forall k, l | 0 <= k < l < i :: OrderOf(items[k], c) != OrderOf(items[l], c)
    {
      var order := OrderOf(items[i], c);
      if order.None? {
        return None;
      }
      if order.value in found {
        assert HasOrder(items[..i], order.value, c);
        ghost var k :| 0 <= k < |items[..i]| && OrderOf(items[..i][k], c) == Some(order.value);
        assert OrderOf(items[k], c) == OrderOf(items[i], c);
        return None;
      }
      found := found[order.value := items[i]];
      forall n | n in found ensures HasOrder(items[..i + 1], n, c) {
        OneMoreOrder(items, i, n, c);
      }
      i := i + 1;
    }
    keyed := Some(found);
    assert items[..|items|] == items;
    FoundAreKids(items, found, c);
  }

  ghost predicate HasOrder(items: seq<Value>, n: int, c: Setting)
  {
    exists k :: 0 <= k < |items| && OrderOf(items[k], c) == Some(n)
  }

  lemma OneMoreOrder(items: seq<Value>, i: nat, n: int, c: Setting)
    requires i < |items|
    ensures HasOrder(items[..i + 1], n, c) <==> HasOrder(items[..i], n, c) || OrderOf(items[i], c) == Some(n)
  {
    if HasOrder(items[..i], n, c) {
      var k :| 0 <= k < |items[..i]| && OrderOf(items[..i][k], c) == Some(n);
      assert items[..i + 1][k] == items[..i][k];
    }
    if OrderOf(items[i], c) == Some(n) {
      assert items[..i + 1][i] == items[i];
    }
    if HasOrder(items[..i + 1], n, c) {
      var k :| 0 <= k < |items[..i + 1]| && OrderOf(items[..i + 1][k], c) == Some(n);
      assert k < i ==> items[..i][k] == items[..i + 1][k];
    }
  }

  lemma FoundAreKids(items: seq<Value>, found: map<int, Value>, c: Setting)
    requires IsKeyed(items, c)
    requires forall k | 0 <= k < |items| ::
      OrderOf(items[k], c).value in found && found[OrderOf(items[k], c).value] == items[k]
    requires forall n | n in found :: HasOrder(items, n, c)
    ensures (set n | n in found :: Order(n)) == Segs(List(items), ByOrder, c)
    ensures forall n | n in found :: found[n] == Kid(List(items), ByOrder, Order(n), c)
  {
    forall s ensures s in (set n | n in found :: Order(n)) <==> s in Segs(List(items), ByOrder, c) {
      if s in Segs(List(items), ByOrder, c) {
        var k :| 0 <= k < |items| && s == Order(OrderOf(items[k], c).value);
        assert OrderOf(items[k], c).value in found;
      }
    }
    forall n | n in found ensures found[n] == Kid(List(items), ByOrder, Order(n), c) {
      var k := Find(items, n, c, 0);
      assert found[OrderOf(items[k], c).value] == items[k];
    }
  }

  method Compute(a: map<string, Value>, b: map<string, Value>, prefix: Path, c: Setting)
    returns (entries: seq<Report>)
    ensures entries == Reports(Compare(Dict(a), Dict(b), prefix, c))
    decreases Dict(a), 1
  {
    var x, y := Dict(a), Dict(b);
    var allKeys := PartsOf(x, y, ByKey, c);
    entries := [];
    var i := 0;
    while i < |allKeys|
      invariant 0 <= i <= |allKeys|
      invariant entries + Reports(KidsDiff(x, y, ByKey, allKeys[i..], prefix, c))
        == Reports(KidsDiff(x, y, ByKey, allKeys, prefix, c))
    {
      PartStep(x, y, ByKey, allKeys, i, prefix, entries, c);
      var sub := ComputeKey(a, b, allKeys[i], prefix, c);
      entries := entries + sub;
      i := i + 1;
    }
  }

  lemma PartStep(x: Value, y: Value, m: Mode, segs: seq<Seg>, i: nat, path: Path, done: seq<Report>, c: Setting)
    requires Fits(x, m, c) && Fits(y, m, c) && i < |segs|
    requires forall s | s in segs :: s in Segs(x, m, c) + Segs(y, m, c)
    ensures segs[i] in Segs(x, m, c) + Segs(y, m, c)
    ensures done + Reports(KidsDiff(x, y, m, segs[i..], path, c))
         == (done + Reports(KidDiff(x, y, m, segs[i], path, c))) + Reports(KidsDiff(x, y, m, segs[i + 1..], path, c))
  {
    assert segs[i] in segs && segs[i..][1..] == segs[i + 1..];
    ReportsJoin(KidDiff(x, y, m, segs[i], path, c), KidsDiff(x, y, m, segs[i + 1..], path, c));
  }

  lemma KeyIsThere(a: map<string, Value>, b: map<string, Value>, key: Seg, c: Setting)
    requires key in Segs(Dict(a), ByKey, c) + Segs(Dict(b), ByKey, c)
    ensures key.Key? && (key.name in a || key.name in b)
    ensures key in Segs(Dict(a), ByKey, c) <==> key.name in a
    ensures key in Segs(Dict(b), ByKey, c) <==> key.name in b
  {
  }

  method ComputeKey(a: map<string, Value>, b: map<string, Value>, key: Seg, prefix: Path, c: Setting)
    returns (entries: seq<Report>)
    requires key in Segs(Dict(a), ByKey, c) + Segs(Dict(b), ByKey, c)
    ensures entries == Reports(KidDiff(Dict(a), Dict(b), ByKey, key, prefix, c))
    decreases Dict(a), 0, 1
  {
    KeyIsThere(a, b, key, c);
    var path := prefix + [key];
    if Print(path) in c.ignored {
      return [];
    }
    if key.name !in a {
      OneReport(path, Added(b[key.name]));
      return [Report(Print(path), Added(b[key.name]))];
    }
    if key.name !in b {
      OneReport(path, Removed(a[key.name]));
      return [Report(Print(path), Removed(a[key.name]))];
    }
    entries := ComputeValues(a[key.name], b[key.name], path, c);
  }

  lemma OneReport(path: Path, change: Change)
    ensures Reports([Entry(path, change)]) == [Report(Print(path), change)]
  {
  }

  /** Two values that are both there. */
  method ComputeValues(p: Value, q: Value, path: Path, c: Setting) returns (entries: seq<Report>)
    ensures entries == Reports(Compare(p, q, path, c))
    decreases p, 2
  {
    OneReport(path, Changed(p, q));
    if p.Dict? && q.Dict? {
      entries := Compute(p.fields, q.fields, path, c);
    } else if p.List? && q.List? {
      entries := [];
      if p != q {
        entries := ComputeLists(p.items, q.items, path, c);
      }
    } else if p != q {
      entries := [Report(Print(path), Changed(p, q))];
    } else {
      entries := [];
    }
  }

  method ComputeLists(xs: seq<Value>, ys: seq<Value>, path: Path, c: Setting) returns (entries: seq<Report>)
    requires xs != ys
    ensures entries == Reports(Compare(List(xs), List(ys), path, c))
    decreases List(xs), 1
  {
    var keyedX := OrderKeyed(xs, c);
    var keyedY := OrderKeyed(ys, c);
    if keyedX.Some? && keyedY.Some? {
      entries := ComputeParts(List(xs), List(ys), ByOrder, path, c);
    } else if |xs| == |ys| && AllDicts(xs) && AllDicts(ys) {
      entries := ComputeParts(List(xs), List(ys), ByIndex, path, c);
    } else {
      entries := [Report(Print(path), Changed(List(xs), List(ys)))];
    }
  }

  /** Entry by entry: added, removed, or compared in turn. */
  method ComputeParts(x: Value, y: Value, m: Mode, path: Path, c: Setting) returns (entries: seq<Report>)
    requires Fits(x, m, c) && Fits(y, m, c) && !m.ByKey?
    ensures entries == Reports(KidsDiff(x, y, m, PartsOf(x, y, m, c), path, c))
    decreases x, 0, 1
  {
    var parts := PartsOf(x, y, m, c);
    entries := [];
    var i := 0;
    while i < |parts|
      invariant 0 <= i <= |parts|
      invariant entries + Reports(KidsDiff(x, y, m, parts[i..], path, c)) == Reports(KidsDiff(x, y, m, parts, path, c))
    {
      PartStep(x, y, m, parts, i, path, entries, c);
      var sub := ComputePart(x, y, m, parts[i], path, c);
      entries := entries + sub;
      i := i + 1;
    }
  }

  method ComputePart(x: Value, y: Value, m: Mode, s: Seg, path: Path, c: Setting) returns (entries: seq<Report>)
    requires Fits(x, m, c) && Fits(y, m, c) && !m.ByKey?
    requires s in Segs(x, m, c) + Segs(y, m, c)
    ensures entries == Reports(KidDiff(x, y, m, s, path, c))
    decreases x, 0, 0
  {
    var here := path + [s];
    if s !in Segs(x, m, c) {
      OneReport(here, Added(Kid(y, m, s, c)));
      return [Report(Print(here), Added(Kid(y, m, s, c)))];
    }
    if s !in Segs(y, m, c) {
      OneReport(here, Removed(Kid(x, m, s, c)));
      return [Report(Print(here), Removed(Kid(x, m, s, c)))];
    }
    var p, q := Kid(x, m, s, c), Kid(y, m, s, c);
    DictsByKey(p, q, c);
    entries := Compute(p.fields, q.fields, here, c);
  }

  lemma DictsByKey(p: Value, q: Value, c: Setting)
    requires p.Dict? && q.Dict?
    ensures Dict(p.fields) == p && Dict(q.fields) == q
  {
  }
}
