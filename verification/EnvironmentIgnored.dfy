/** What ignored keys do to a diff: they hide entries, and change nothing else. */
module EnvironmentIgnored {
  import opened Messages
  import opened EnvironmentDiff
  import opened EnvironmentRebuild

  /** The same comparison with nothing ignored. */
  function Full(c: Setting): Setting { c.(ignored := {}) }

  /** Some key on the way, past the first `from` segments, prints as an ignored path. */
  predicate Hidden(path: Path, from: nat, ignored: set<string>)
  {
    exists n: nat :: from < n <= |path| && path[n - 1].Key? && Print(path[..n]) in ignored
  }

  function Visible(entries: seq<Entry>, from: nat, ignored: set<string>): seq<Entry>
  {
    if entries == [] then []
    else (if Hidden(entries[0].path, from, ignored) then [] else [entries[0]]) + Visible(entries[1..], from, ignored)
  }

  // ---- How values are broken down does not depend on what is ignored ----

  lemma SameOrders(v: Value, c: Setting)
    ensures OrderOf(v, c) == OrderOf(v, Full(c))
  {
  }

  lemma SameKeyed(items: seq<Value>, c: Setting)
    ensures IsKeyed(items, c) <==> IsKeyed(items, Full(c))
  {
    forall i | 0 <= i < |items| ensures OrderOf(items[i], c) == OrderOf(items[i], Full(c)) {
      SameOrders(items[i], c);
    }
  }

  lemma SameModes(x: Value, y: Value, c: Setting)
    ensures ModeOf(x, y, c) == ModeOf(x, y, Full(c))
  {
    if x.List? && y.List? {
      SameKeyed(x.items, c);
      SameKeyed(y.items, c);
    }
  }

  lemma SameParts(v: Value, m: Mode, c: Setting)
    ensures Fits(v, m, c) <==> Fits(v, m, Full(c))
    ensures Fits(v, m, c) ==> Segs(v, m, c) == Segs(v, m, Full(c))
  {
    if v.List? {
      SameKeyed(v.items, c);
    }
  }

  lemma {:induction false} SameFind(items: seq<Value>, n: int, c: Setting, from: nat)
    requires exists j :: from <= j < |items| && OrderOf(items[j], c) == Some(n)
    ensures exists j :: from <= j < |items| && OrderOf(items[j], Full(c)) == Some(n)
    ensures Find(items, n, c, from) == Find(items, n, Full(c), from)
    decreases |items| - from
  {
    var i :| from <= i < |items| && OrderOf(items[i], c) == Some(n);
    assert OrderOf(items[i], Full(c)) == Some(n);
    if OrderOf(items[from], c) != Some(n) {
      SameFind(items, n, c, from + 1);
    }
  }

  lemma SameKid(v: Value, m: Mode, s: Seg, c: Setting)
    requires Fits(v, m, c) && s in Segs(v, m, c)
    ensures Fits(v, m, Full(c)) && s in Segs(v, m, Full(c)) && Kid(v, m, s, c) == Kid(v, m, s, Full(c))
  {
    SameParts(v, m, c);
    if m.ByOrder? {
      SameFind(v.items, s.order, c, 0);
    }
  }

  // ---- Hiding entries ----

  lemma {:induction false} VisibleJoin(a: seq<Entry>, b: seq<Entry>, from: nat, ignored: set<string>)
    ensures Visible(a + b, from, ignored) == Visible(a, from, ignored) + Visible(b, from, ignored)
  {
    if a == [] {
      assert a + b == b;
    } else {
      assert (a + b)[0] == a[0] && (a + b)[1..] == a[1..] + b;
      VisibleJoin(a[1..], b, from, ignored);
    }
  }

  /** What lies below an ignored key is hidden. */
  lemma {:induction false} HiddenBelow(entries: seq<Entry>, here: Path, from: nat, ignored: set<string>)
    requires from < |here| && here[|here| - 1].Key? && Print(here) in ignored && Below(entries, here)
    ensures Visible(entries, from, ignored) == []
  {
    if entries != [] {
      var p := entries[0].path;
      assert entries[0] in entries && p[..|here|] == here;
      assert Hidden(p, from, ignored);
      assert forall e | e in entries[1..] :: e in entries;
      HiddenBelow(entries[1..], here, from, ignored);
    }
  }

  lemma HiddenLater(p: Path, here: Path, ignored: set<string>)
    requires here != [] && here <= p && !(here[|here| - 1].Key? && Print(here) in ignored)
    ensures Hidden(p, |here| - 1, ignored) <==> Hidden(p, |here|, ignored)
  {
    assert p[..|here|] == here;
    if Hidden(p, |here| - 1, ignored) {
      var n: nat :| |here| - 1 < n <= |p| && p[n - 1].Key? && Print(p[..n]) in ignored;
      assert n != |here|;
    }
    if Hidden(p, |here|, ignored) {
      var n: nat :| |here| < n <= |p| && p[n - 1].Key? && Print(p[..n]) in ignored;
      assert |here| - 1 < n;
    }
  }

  /** A part that is not ignored itself hides nothing. */
  lemma {:induction false} VisibleBelow(entries: seq<Entry>, here: Path, ignored: set<string>)
    requires here != [] && Below(entries, here) && !(here[|here| - 1].Key? && Print(here) in ignored)
    ensures Visible(entries, |here| - 1, ignored) == Visible(entries, |here|, ignored)
  {
    if entries != [] {
      assert entries[0] in entries;
      HiddenLater(entries[0].path, here, ignored);
      assert forall e | e in entries[1..] :: e in entries;
      VisibleBelow(entries[1..], here, ignored);
    }
  }

  lemma OneVisible(e: Entry, ignored: set<string>)
    requires e.path != [] && !(e.path[|e.path| - 1].Key? && Print(e.path) in ignored)
    ensures Visible([e], |e.path| - 1, ignored) == [e]
  {
    HiddenLater(e.path, e.path, ignored);
    assert [e][1..] == [];
  }

  // ---- The comparison ----

  lemma IgnoredPart(x: Value, y: Value, m: Mode, s: Seg, path: Path, c: Setting)
    requires Fits(x, m, c) && Fits(y, m, c) && s in Segs(x, m, c) + Segs(y, m, c)
    ensures Fits(x, m, Full(c)) && Fits(y, m, Full(c)) && s in Segs(x, m, Full(c)) + Segs(y, m, Full(c))
    ensures KidDiff(x, y, m, s, path, c) == Visible(KidDiff(x, y, m, s, path, Full(c)), |path|, c.ignored)
    decreases x, 0
  {
    var here := path + [s];
    SameParts(x, m, c);
    SameParts(y, m, c);
    KidBelow(x, y, m, s, path, Full(c));
    if s.Key? && Print(here) in c.ignored {
      HiddenBelow(KidDiff(x, y, m, s, path, Full(c)), here, |path|, c.ignored);
    } else if s !in Segs(x, m, c) {
      SameKid(y, m, s, c);
      OneVisible(Entry(here, Added(Kid(y, m, s, c))), c.ignored);
    } else if s !in Segs(y, m, c) {
      SameKid(x, m, s, c);
      OneVisible(Entry(here, Removed(Kid(x, m, s, c))), c.ignored);
    } else {
      SameKid(x, m, s, c);
      SameKid(y, m, s, c);
      IgnoredKeysOnlyHide(Kid(x, m, s, c), Kid(y, m, s, c), here, c);
      VisibleBelow(Compare(Kid(x, m, s, c), Kid(y, m, s, c), here, Full(c)), here, c.ignored);
    }
  }

  lemma {:induction false} IgnoredParts(x: Value, y: Value, m: Mode, segs: seq<Seg>, path: Path, c: Setting)
    requires Fits(x, m, c) && Fits(y, m, c) && forall s | s in segs :: s in Segs(x, m, c) + Segs(y, m, c)
    ensures Fits(x, m, Full(c)) && Fits(y, m, Full(c))
    ensures forall s | s in segs :: s in Segs(x, m, Full(c)) + Segs(y, m, Full(c))
    ensures KidsDiff(x, y, m, segs, path, c) == Visible(KidsDiff(x, y, m, segs, path, Full(c)), |path|, c.ignored)
    decreases x, 1, |segs|
  {
    SameParts(x, m, c);
    SameParts(y, m, c);
    if segs != [] {
      IgnoredPart(x, y, m, segs[0], path, c);
      IgnoredParts(x, y, m, segs[1..], path, c);
      VisibleJoin(KidDiff(x, y, m, segs[0], path, Full(c)), KidsDiff(x, y, m, segs[1..], path, Full(c)), |path|,
        c.ignored);
    }
  }

  /**
   Whatever is ignored, the comparison is the one that ignores nothing, without exactly the entries at or below
   a key, past the starting path, whose path prints as an ignored one.
   */
  lemma {:induction false} IgnoredKeysOnlyHide(x: Value, y: Value, path: Path, c: Setting)
    ensures Compare(x, y, path, c) == Visible(Compare(x, y, path, Full(c)), |path|, c.ignored)
    decreases x, 2
  {
    var m := ModeOf(x, y, c);
    SameModes(x, y, c);
    if m.Some? && (m.value.ByKey? || x != y) {
      SameParts(x, m.value, c);
      SameParts(y, m.value, c);
      IgnoredParts(x, y, m.value, PartsOf(x, y, m.value, c), path, c);
    } else if x != y {
      assert !Hidden(path, |path|, c.ignored);
      assert [Entry(path, Changed(x, y))][1..] == [];
    }
  }

  /** In particular two environments are reported equal if and only if all that differs is ignored. */
  lemma {:induction false} NothingVisible(entries: seq<Entry>, from: nat, ignored: set<string>)
    ensures Visible(entries, from, ignored) == [] <==> forall e | e in entries :: Hidden(e.path, from, ignored)
  {
    if entries != [] {
      NothingVisible(entries[1..], from, ignored);
      assert entries == [entries[0]] + entries[1..];
    }
  }
}
