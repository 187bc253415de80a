/**
 What printed paths tell: which keys an environment may use for the reported diff to determine the other
 side, and what goes wrong with every other key.
 */
module EnvironmentPaths {
  import opened Decimals
  import opened EnvironmentDiff
  import opened EnvironmentDiffLaws
  import opened EnvironmentRebuild
  import opened Messages
  import opened Sequences

  // ---- Keys spelt with certain characters ----

  predicate Spelt(name: string, alphabet: set<char>)
  {
    name != "" && forall ch | ch in name :: ch in alphabet
  }

  predicate PathSpelt(path: Path, alphabet: set<char>)
  {
    forall s | s in path && s.Key? :: Spelt(s.name, alphabet)
  }

  predicate ValueSpelt(v: Value, alphabet: set<char>)
  {
    match v
    case Scalar(_) => true
    case List(items) => forall i | 0 <= i < |items| :: ValueSpelt(items[i], alphabet)
    case Dict(fields) => forall k | k in fields :: Spelt(k, alphabet) && ValueSpelt(fields[k], alphabet)
  }

  /** No dots, and nothing that could pass for a list position in brackets. */
  predicate Clear(alphabet: set<char>)
  {
    && '.' !in alphabet
    && !('[' in alphabet && ']' in alphabet && exists ch | ch in DIGITS :: ch in alphabet)
  }

  // ---- A printed path is its first key and one token for each further segment ----

  /** What stands between the brackets. */
  function Inner(s: Seg): string
    requires !s.Key?
  {
    if s.Order? then "order=" + Decimal(s.order) else Decimal(s.index)
  }

  function Tail(path: Path): string
  {
    if path == [] then "" else Token(path[0]) + Tail(path[1..])
  }

  lemma {:induction false} TailOneMore(path: Path, s: Seg)
    ensures Tail(path + [s]) == Tail(path) + Token(s)
  {
    if path == [] {
      assert [s][1..] == [];
      NothingAdded(Token(s));
    } else {
      FirstOfJoin(path, [s]);
      TailOneMore(path[1..], s);
      Regroup(Token(path[0]), Tail(path[1..]), Token(s));
    }
  }

  lemma PrintGoesOn(first: string, tail: string, last: Seg)
    requires first != ""
    ensures Extend(first + tail, last) == first + (tail + Token(last))
  {
    Regroup(first, tail, Token(last));
  }

  lemma {:induction false} PrintedIsKeyAndTail(path: Path)
    requires path != [] && path[0].Key? && path[0].name != ""
    ensures Print(path) == path[0].name + Tail(path[1..])
    decreases |path|
  {
    var first, last := path[0].name, path[|path| - 1];
    if |path| == 1 {
      assert path[..0] == [] && path[1..] == [];
      NothingAdded(first);
    } else {
      PrintedIsKeyAndTail(path[..|path| - 1]);
      TailOfMore(path);
      PrintGoesOn(first, Tail(path[1..|path| - 1]), last);
    }
  }

  lemma TailOfMore(path: Path)
    requires |path| > 1
    ensures path[..|path| - 1][0] == path[0] && path[..|path| - 1][1..] == path[1..|path| - 1]
    ensures Tail(path[1..]) == Tail(path[1..|path| - 1]) + Token(path[|path| - 1])
  {
    assert path[1..] == path[1..|path| - 1] + [path[|path| - 1]];
    TailOneMore(path[1..|path| - 1], path[|path| - 1]);
  }

  lemma BracketToken(s: Seg)
    requires !s.Key?
    ensures Token(s) == "[" + (Inner(s) + "]")
  {
    if s.Order? {
      assert "[order=" == "[" + "order=";
      Regroup("[", "order=", Decimal(s.order));
    }
    Regroup("[", Inner(s), "]");
  }

  lemma InnerChars(s: Seg)
    requires !s.Key?
    ensures forall ch | ch in Inner(s) :: ch != '.' && ch != '[' && ch != ']'
    ensures exists ch :: ch in DIGITS && ch in Inner(s)
  {
    var n := if s.Order? then s.order else s.index;
    DecimalChars(n);
    var ch :| ch in Decimal(n) && ch in DIGITS;
    assert ch in Inner(s);
    assert forall ch | ch in Inner(s) :: ch in "order=" || ch in Decimal(n);
  }

  lemma InnerStarts(s: Seg)
    requires !s.Key?
    ensures Inner(s) != "" && (Inner(s)[0] == 'o' <==> s.Order?)
  {
    DecimalChars(if s.Order? then s.order else s.index);
    if s.Index? {
      assert Decimal(s.index)[0] in Decimal(s.index);
    }
  }

  lemma InnerTells(s: Seg, t: Seg)
    requires !s.Key? && !t.Key? && Inner(s) == Inner(t)
    ensures s == t
  {
    InnerStarts(s);
    InnerStarts(t);
    if s.Order? {
      Behind("order=", Decimal(s.order), Decimal(t.order), Inner(s));
      DecimalTellsNumbers(s.order, t.order);
    } else {
      DecimalTellsNumbers(s.index, t.index);
    }
  }

  lemma Behind(front: string, a: string, b: string, whole: string)
    requires whole == front + a && whole == front + b
    ensures a == b
  {
    assert whole[|front|..] == a && whole[|front|..] == b;
  }

  /** The first closing bracket ends the token. */
  lemma FirstBracket(a: string, rest: string, whole: string)
    requires ']' !in a && whole == a + ("]" + rest)
    ensures |a| < |whole| && whole[|a|] == ']' && forall i | 0 <= i < |a| :: whole[i] != ']'
    ensures whole[..|a|] == a && whole[|a| + 1..] == rest
  {
    forall i | 0 <= i < |a| ensures whole[i] != ']' {
      assert whole[i] == a[i] && a[i] in a;
    }
  }

  lemma SameTokens(s: Seg, t: Seg, restS: string, restT: string)
    requires !s.Key? && !t.Key? && Token(s) + restS == Token(t) + restT
    ensures s == t && restS == restT
  {
    var whole := Token(s) + restS;
    TokenInFront(s, restS);
    TokenInFront(t, restT);
    InnerChars(s);
    InnerChars(t);
    FirstBracket(Inner(s), restS, whole[1..]);
    FirstBracket(Inner(t), restT, whole[1..]);
    InnerTells(s, t);
  }

  lemma TokenInFront(s: Seg, rest: string)
    requires !s.Key?
    ensures (Token(s) + rest)[1..] == Inner(s) + ("]" + rest)
  {
    BracketToken(s);
  }

  // ---- Printing tells paths apart ----

  lemma TokenInside(s: Seg, i: nat)
    requires !s.Key? && 0 < i < |Token(s)|
    ensures Token(s)[i] != '.' && Token(s)[i] != '['
  {
    InnerChars(s);
    BracketToken(s);
    assert i - 1 < |Inner(s)| ==> Token(s)[i] == Inner(s)[i - 1] && Inner(s)[i - 1] in Inner(s);
  }

  lemma TokenIsNotClear(s: Seg, alphabet: set<char>)
    requires !s.Key? && forall ch | ch in Token(s) :: ch in alphabet
    ensures !Clear(alphabet)
  {
    InnerChars(s);
    BracketToken(s);
    var ch :| ch in DIGITS && ch in Inner(s);
    assert ch in Token(s) && '[' in Token(s) && ']' in Token(s);
  }

  /** A key that holds a whole bracketed position is not spelt with a clear alphabet. */
  lemma NoTokenInKey(k: string, s: Seg, at: nat, alphabet: set<char>)
    requires !s.Key? && at + |Token(s)| <= |k| && k[at..at + |Token(s)|] == Token(s)
    requires Spelt(k, alphabet)
    ensures !Clear(alphabet)
  {
    forall ch | ch in k[at..at + |Token(s)|] ensures ch in alphabet {
      assert ch in k;
    }
    TokenIsNotClear(s, alphabet);
  }

  lemma InFront(k: string, rest: string, whole: string)
    requires whole == k + rest
    ensures |k| <= |whole| && whole[..|k|] == k && whole[|k|..] == rest
    ensures forall i | 0 <= i < |k| :: whole[i] == k[i] && whole[i] in k
  {
  }

  lemma TailStarts(path: Path)
    ensures path == [] <==> Tail(path) == ""
    ensures path != [] ==> Tail(path)[0] == Token(path[0])[0]
  {
  }

  /** Where a key ends, a token starts or the path does. */
  predicate StartsToken(tail: string) { tail == "" || tail[0] == '.' || tail[0] == '[' }

  lemma WithinKey(j: string, more: string, k: string, tail: string, i: nat)
    requires j + more == k + tail && |j| + i < |k|
    ensures i < |more| && more[i] == k[|j| + i]
  {
    InFront(j, more, j + more);
    InFront(k, tail, j + more);
  }

  /** A key cannot go on over a bracketed position and end behind it. */
  lemma NotPastToken(j: string, s: Seg, rest: string, k: string, tail: string, alphabet: set<char>)
    requires !s.Key? && j + (Token(s) + rest) == k + tail && |j| + |Token(s)| <= |k| && Spelt(k, alphabet)
    ensures !Clear(alphabet)
  {
    var token := Token(s);
    forall i | 0 <= i < |token| ensures k[|j| + i] == token[i] {
      WithinKey(j, token + rest, k, tail, i);
    }
    NoTokenInKey(k, s, |j|, alphabet);
  }

  /** Nor end inside it, for no token starts there. */
  lemma NotIntoToken(j: string, s: Seg, rest: string, k: string, tail: string)
    requires !s.Key? && j + (Token(s) + rest) == k + tail && |j| < |k| < |j| + |Token(s)|
    ensures !StartsToken(tail)
  {
    var whole := k + tail;
    InFront(j, Token(s) + rest, whole);
    InFront(Token(s), rest, Token(s) + rest);
    InFront(k, tail, whole);
    var i := |k| - |j|;
    assert whole[|k|] == (Token(s) + rest)[i] == Token(s)[i];
    assert tail[0] == whole[|k|];
    TokenInside(s, i);
  }

  lemma NotLonger(j: string, p: Path, k: string, q: Path, alphabet: set<char>)
    requires Clear(alphabet) && Spelt(k, alphabet) && j + Tail(p) == k + Tail(q)
    ensures |k| <= |j|
  {
    TailStarts(p);
    TailStarts(q);
    if |j| < |k| {
      WithinKey(j, Tail(p), k, Tail(q), 0);
      assert Token(p[0])[0] == k[|j|] && k[|j|] in k;
      if |j| + |Token(p[0])| <= |k| {
        NotPastToken(j, p[0], Tail(p[1..]), k, Tail(q), alphabet);
      } else {
        NotIntoToken(j, p[0], Tail(p[1..]), k, Tail(q));
      }
    }
  }

  lemma PathParts(p: Path, alphabet: set<char>)
    requires p != [] && PathSpelt(p, alphabet)
    ensures PathSpelt(p[1..], alphabet) && (p[0].Key? ==> Spelt(p[0].name, alphabet))
    ensures p == [p[0]] + p[1..]
  {
    assert p[0] in p && forall s | s in p[1..] :: s in p;
  }

  lemma {:induction false} TailTells(p: Path, q: Path, alphabet: set<char>)
    requires Clear(alphabet) && PathSpelt(p, alphabet) && PathSpelt(q, alphabet)
    requires Tail(p) == Tail(q)
    ensures p == q
    decreases |p|, 0
  {
    TailStarts(p);
    TailStarts(q);
    if p != [] {
      var restP, restQ := Tail(p[1..]), Tail(q[1..]);
      PathParts(p, alphabet);
      PathParts(q, alphabet);
      if p[0].Key? {
        Regroup(".", p[0].name, restP);
        Regroup(".", q[0].name, restQ);
        Behind(".", p[0].name + restP, q[0].name + restQ, Tail(p));
        KeyAndTailTell(p[0].name, p[1..], q[0].name, q[1..], alphabet);
      } else {
        SameTokens(p[0], q[0], restP, restQ);
        TailTells(p[1..], q[1..], alphabet);
      }
    }
  }

  lemma {:induction false} KeyAndTailTell(j: string, p: Path, k: string, q: Path, alphabet: set<char>)
    requires Clear(alphabet) && PathSpelt(p, alphabet) && PathSpelt(q, alphabet)
    requires Spelt(j, alphabet) && Spelt(k, alphabet) && j + Tail(p) == k + Tail(q)
    ensures j == k && p == q
    decreases |p|, 1
  {
    NotLonger(j, p, k, q, alphabet);
    NotLonger(k, q, j, p, alphabet);
    InFront(j, Tail(p), j + Tail(p));
    InFront(k, Tail(q), j + Tail(p));
    TailTells(p, q, alphabet);
  }

  /** The path of an entry in a comparison of two dictionaries begins with a key. */
  predicate FromKey(path: Path) { path != [] && path[0].Key? }

  /** Spelt with a clear alphabet, different paths print differently. */
  lemma PrintTellsPaths(p: Path, q: Path, alphabet: set<char>)
    requires Clear(alphabet) && PathSpelt(p, alphabet) && PathSpelt(q, alphabet)
    requires FromKey(p) && FromKey(q) && Print(p) == Print(q)
    ensures p == q
  {
    PathParts(p, alphabet);
    PathParts(q, alphabet);
    PrintedIsKeyAndTail(p);
    PrintedIsKeyAndTail(q);
    KeyAndTailTell(p[0].name, p[1..], q[0].name, q[1..], alphabet);
  }

  // ---- From printed paths back to the other side ----

  ghost predicate EntriesSpelt(entries: seq<Entry>, alphabet: set<char>)
  {
    forall e | e in entries :: PathSpelt(e.path, alphabet)
  }

  lemma KidSpelt(v: Value, m: Mode, s: Seg, alphabet: set<char>, c: Setting)
    requires Fits(v, m, c) && s in Segs(v, m, c) && ValueSpelt(v, alphabet)
    ensures ValueSpelt(Kid(v, m, s, c), alphabet) && (s.Key? ==> Spelt(s.name, alphabet))
  {
  }

  lemma PartSpelt(x: Value, y: Value, m: Mode, s: Seg, path: Path, alphabet: set<char>, c: Setting)
    requires Fits(x, m, c) && Fits(y, m, c) && s in Segs(x, m, c) + Segs(y, m, c)
    requires ValueSpelt(x, alphabet) && ValueSpelt(y, alphabet) && PathSpelt(path, alphabet)
    ensures EntriesSpelt(KidDiff(x, y, m, s, path, c), alphabet)
    decreases x, 0
  {
    var here := path + [s];
    if s in Segs(x, m, c) {
      KidSpelt(x, m, s, alphabet, c);
    }
    if s in Segs(y, m, c) {
      KidSpelt(y, m, s, alphabet, c);
    }
    assert PathSpelt(here, alphabet);
    if s in Segs(x, m, c) && s in Segs(y, m, c) {
      CompareSpelt(Kid(x, m, s, c), Kid(y, m, s, c), here, alphabet, c);
    }
  }

  lemma {:induction false} PartsSpelt(x: Value, y: Value, m: Mode, segs: seq<Seg>, path: Path,
      alphabet: set<char>, c: Setting)
    requires Fits(x, m, c) && Fits(y, m, c) && forall s | s in segs :: s in Segs(x, m, c) + Segs(y, m, c)
    requires ValueSpelt(x, alphabet) && ValueSpelt(y, alphabet) && PathSpelt(path, alphabet)
    ensures EntriesSpelt(KidsDiff(x, y, m, segs, path, c), alphabet)
    decreases x, 1, |segs|
  {
    if segs != [] {
      PartSpelt(x, y, m, segs[0], path, alphabet, c);
      PartsSpelt(x, y, m, segs[1..], path, alphabet, c);
    }
  }

  /** The keys on an entry's path are keys of the environments. */
  lemma CompareSpelt(x: Value, y: Value, path: Path, alphabet: set<char>, c: Setting)
    requires ValueSpelt(x, alphabet) && ValueSpelt(y, alphabet) && PathSpelt(path, alphabet)
    ensures EntriesSpelt(Compare(x, y, path, c), alphabet)
    decreases x, 2
  {
    var m := ModeOf(x, y, c);
    if m.Some? && (m.value.ByKey? || x != y) {
      PartsSpelt(x, y, m.value, PartsOf(x, y, m.value, c), path, alphabet, c);
    }
  }

  lemma EntriesFromKeys(x: Value, y: Value, c: Setting)
    requires x.Dict? && y.Dict?
    ensures forall e | e in Compare(x, y, [], c) :: FromKey(e.path)
  {
    var parts := PartsOf(x, y, ByKey, c);
    MentionedKids(x, y, ByKey, parts, [], c);
    forall e | e in Compare(x, y, [], c) ensures FromKey(e.path) {
      assert e.path[0] in Mentioned(Compare(x, y, [], c), 0);
    }
  }

  lemma ReportsTellEntries(a: seq<Entry>, b: seq<Entry>, alphabet: set<char>)
    requires Clear(alphabet) && EntriesSpelt(a, alphabet) && EntriesSpelt(b, alphabet)
    requires (forall e | e in a :: FromKey(e.path)) && (forall e | e in b :: FromKey(e.path))
    requires Reports(a) == Reports(b)
    ensures a == b
  {
    assert |a| == |Reports(a)| == |Reports(b)| == |b|;
    forall i | 0 <= i < |a| ensures a[i] == b[i] {
      assert Reports(a)[i] == Reports(b)[i] && a[i] in a && b[i] in b;
      PrintTellsPaths(a[i].path, b[i].path, alphabet);
    }
  }

  /** What is reported against one side leaves no choice about the other, up to the order of order-keyed lists. */
  ghost predicate ReportsDecide(x: Value, y: Value, z: Value, c: Setting)
  {
    Reports(Compare(x, y, [], c)) == Reports(Compare(x, z, [], c)) ==> Same(y, z, c)
  }

  ghost predicate Environments(x: Value, y: Value, z: Value, alphabet: set<char>)
  {
    && x.Dict? && y.Dict? && z.Dict?
    && ValueSpelt(x, alphabet) && ValueSpelt(y, alphabet) && ValueSpelt(z, alphabet)
  }

  /** With keys of a clear alphabet the reported diff determines the other environment. */
  lemma ReportsRebuildTheOther(x: Value, y: Value, z: Value, alphabet: set<char>, c: Setting)
    requires c.ignored == {} && Clear(alphabet) && Environments(x, y, z, alphabet)
    ensures ReportsDecide(x, y, z, c)
  {
    var a, b := Compare(x, y, [], c), Compare(x, z, [], c);
    if Reports(a) == Reports(b) {
      CompareSpelt(x, y, [], alphabet, c);
      CompareSpelt(x, z, [], alphabet, c);
      EntriesFromKeys(x, y, c);
      EntriesFromKeys(x, z, c);
      ReportsTellEntries(a, b, alphabet);
      RebuildsTheOther(x, y, [], c);
      RebuildsTheOther(x, z, [], c);
    }
  }

  // ---- What goes wrong with other keys ----

  lemma {:induction false} OnlyPart(x: Value, y: Value, m: Mode, segs: seq<Seg>, s: Seg, path: Path, c: Setting)
    requires Fits(x, m, c) && Fits(y, m, c) && forall t | t in segs :: t in Segs(x, m, c) + Segs(y, m, c)
    requires Distinct(segs) && s in segs && forall t | t in segs && t != s :: KidDiff(x, y, m, t, path, c) == []
    ensures KidsDiff(x, y, m, segs, path, c) == KidDiff(x, y, m, s, path, c)
    decreases |segs|
  {
    HeadNotInTail(segs);
    var rest := segs[1..];
    if segs[0] == s {
      EmptyByParts(x, y, m, rest, path, c);
      NothingAdded(KidDiff(x, y, m, s, path, c));
    } else {
      assert segs[0] in segs && s in rest && forall t | t in rest :: t in segs;
      OnlyPart(x, y, m, rest, s, path, c);
    }
  }

  lemma NothingOfTheSame(x: Value, path: Path, c: Setting)
    requires c.ignored == {}
    ensures Compare(x, x, path, c) == []
  {
    EmptyExactlyWhenSame(x, x, path, c);
  }

  /** When two values differ in one part, the comparison is that part's. */
  lemma OnePartChanged(x: Value, y: Value, m: Mode, s: Seg, path: Path, c: Setting)
    requires c.ignored == {} && ModeOf(x, y, c) == Some(m) && x != y && Segs(x, m, c) == Segs(y, m, c)
    requires s in Segs(x, m, c)
    requires forall t | t in Segs(x, m, c) && t != s :: Kid(x, m, t, c) == Kid(y, m, t, c)
    ensures Compare(x, y, path, c) == Compare(Kid(x, m, s, c), Kid(y, m, s, c), path + [s], c)
  {
    var both, parts := Segs(x, m, c) + Segs(y, m, c), PartsOf(x, y, m, c);
    SortedMembers(both);
    SortedIsDistinct(both);
    forall t | t in parts && t != s ensures KidDiff(x, y, m, t, path, c) == [] {
      NothingOfTheSame(Kid(x, m, t, c), path + [t], c);
    }
    OnlyPart(x, y, m, parts, s, path, c);
  }

  function One(key: string, value: Value): Value { Dict(map[key := value]) }

  function Two(j: string, x: Value, k: string, y: Value): Value { Dict(map[j := x, k := y]) }

  const OLD := Scalar(0)
  const NEW := Scalar(1)

  lemma OneChanged(key: string, path: Path, c: Setting)
    requires c.ignored == {}
    ensures Compare(One(key, OLD), One(key, NEW), path, c) == [Entry(path + [Key(key)], Changed(OLD, NEW))]
    ensures !Same(One(key, OLD), One(key, NEW), c)
  {
    var x, y := One(key, OLD), One(key, NEW);
    assert Segs(x, ByKey, c) == {Key(key)} == Segs(y, ByKey, c);
    assert x.fields[key] != y.fields[key];
    OnePartChanged(x, y, ByKey, Key(key), path, c);
    SameByKids(x, y, ByKey, c);
    assert !Same(Kid(x, ByKey, Key(key), c), Kid(y, ByKey, Key(key), c), c);
  }

  lemma FirstOfTwo(j: string, x: Value, x': Value, k: string, y: Value, c: Setting)
    requires c.ignored == {} && j != k && x != x'
    ensures Compare(Two(j, x, k, y), Two(j, x', k, y), [], c) == Compare(x, x', [Key(j)], c)
  {
    var v, w := Two(j, x, k, y), Two(j, x', k, y);
    assert Segs(v, ByKey, c) == {Key(j), Key(k)} == Segs(w, ByKey, c);
    assert v.fields[j] != w.fields[j];
    OnePartChanged(v, w, ByKey, Key(j), [], c);
    assert [] + [Key(j)] == [Key(j)];
  }

  lemma TwoSwapped(j: string, x: Value, k: string, y: Value)
    requires j != k
    ensures Two(j, x, k, y) == Two(k, y, j, x)
  {
  }

  lemma TwoDiffer(j: string, x: Value, x': Value, k: string, y: Value, y': Value, c: Setting)
    requires j != k && !Same(x, x', c)
    ensures !Same(Two(j, x, k, y), Two(j, x', k, y'), c)
  {
    var v, w := Two(j, x, k, y), Two(j, x', k, y');
    assert Key(j) in Segs(v, ByKey, c);
    assert Kid(v, ByKey, Key(j), c) == x && Kid(w, ByKey, Key(j), c) == x';
    SameByKids(v, w, ByKey, c);
  }

  /** The two sides `y` and `z` differ, and what is reported of them against `x` is the same. */
  ghost predicate Collide(x: Value, y: Value, z: Value, c: Setting)
  {
    !ReportsDecide(x, y, z, c)
  }

  lemma CollideByParts(j: string, x: Value, x': Value, k: string, y: Value, y': Value, c: Setting)
    requires c.ignored == {} && j != k && x != x' && y != y' && !Same(x', x, c)
    requires Reports(Compare(x, x', [Key(j)], c)) == Reports(Compare(y, y', [Key(k)], c))
    ensures Collide(Two(j, x, k, y), Two(j, x', k, y), Two(j, x, k, y'), c)
  {
    FirstOfTwo(j, x, x', k, y, c);
    FirstOfTwo(k, y, y', j, x, c);
    TwoSwapped(j, x, k, y);
    TwoSwapped(j, x, k, y');
    TwoDiffer(j, x', x, k, y, y', c);
  }

  /**
   A key that reads like two keys in a row (`p.q`, or an empty key before `q`) collides: a change of that
   entry and a change of the entry under both keys are reported alike.
   */
  lemma JoinedKeyCollides(p: string, q: string, c: Setting)
    requires c.ignored == {} && Extend(p, Key(q)) != p
    ensures
      var key := Extend(p, Key(q));
      Collide(Two(key, OLD, p, One(q, OLD)), Two(key, NEW, p, One(q, OLD)), Two(key, OLD, p, One(q, NEW)), c)
  {
    var key := Extend(p, Key(q));
    OneChanged(q, [Key(p)], c);
    PrintOneMore([], Key(p));
    PrintOneMore([Key(p)], Key(q));
    PrintOneMore([], Key(key));
    assert [] + [Key(p)] == [Key(p)] && [] + [Key(key)] == [Key(key)];
    assert One(q, OLD).fields[q] != One(q, NEW).fields[q];
    CollideByParts(key, OLD, NEW, p, One(q, OLD), One(q, NEW), c);
  }

  lemma NewIsNotOld(x: Value, y: Value, c: Setting)
    requires !Same(x, y, c)
    ensures x != y && !Same(y, x, c)
  {
  }

  function Copies(n: nat, item: Value): seq<Value> { seq(n, _ => item) }

  lemma ItemChanged(n: nat, q: string, path: Path, c: Setting)
    requires c.ignored == {} && q != "order"
    ensures
      var items := Copies(n + 1, One(q, OLD));
      && items[n := One(q, NEW)] != items
      && Compare(List(items), List(items[n := One(q, NEW)]), path, c)
         == Compare(One(q, OLD), One(q, NEW), path + [Index(n)], c)
  {
    var items := Copies(n + 1, One(q, OLD));
    var x, y := List(items), List(items[n := One(q, NEW)]);
    assert One(q, OLD).fields[q] != One(q, NEW).fields[q];
    assert x.items[n] != y.items[n];
    assert OrderOf(items[0], c) == None;
    assert OrderOf(y.items[n], c) == None;
    forall s ensures s in Segs(x, ByIndex, c) <==> s in Segs(y, ByIndex, c) {
    }
    assert Index(n) in Segs(x, ByIndex, c);
    OnePartChanged(x, y, ByIndex, Index(n), path, c);
  }

  /** A key that reads like a list position behind another key collides in the same way. */
  lemma BracketedKeyCollides(p: string, n: nat, q: string, c: Setting)
    requires c.ignored == {} && q != "order"
    ensures
      var key, items := Extend(p, Index(n)), Copies(n + 1, One(q, OLD));
      var changed := List(items[n := One(q, NEW)]);
      Collide(Two(key, One(q, OLD), p, List(items)), Two(key, One(q, NEW), p, List(items)),
              Two(key, One(q, OLD), p, changed), c)
  {
    var key, items := Extend(p, Index(n)), Copies(n + 1, One(q, OLD));
    var changed := List(items[n := One(q, NEW)]);
    ItemChanged(n, q, [Key(p)], c);
    OneChanged(q, [Key(key)], c);
    OneChanged(q, [Key(p)] + [Index(n)], c);
    BothPrint(p, n, q);
    NewIsNotOld(One(q, OLD), One(q, NEW), c);
    CollideByParts(key, One(q, OLD), One(q, NEW), p, List(items), changed, c);
  }

  lemma BothPrint(p: string, n: nat, q: string)
    ensures Print([Key(Extend(p, Index(n)))] + [Key(q)]) == Print(([Key(p)] + [Index(n)]) + [Key(q)])
    ensures |Extend(p, Index(n))| > |p|
  {
    PrintOneMore([], Key(p));
    PrintOneMore([], Key(Extend(p, Index(n))));
    assert [] + [Key(p)] == [Key(p)] && [] + [Key(Extend(p, Index(n)))] == [Key(Extend(p, Index(n)))];
    PrintOneMore([Key(p)], Index(n));
    PrintOneMore([Key(Extend(p, Index(n)))], Key(q));
    PrintOneMore([Key(p)] + [Index(n)], Key(q));
  }

  // ---- Exactly which keys are safe ----

  /** Whatever is compared, as long as the keys are spelt with these characters. */
  ghost predicate ReportsAlwaysDecide(alphabet: set<char>, c: Setting)
  {
    forall x, y, z | Environments(x, y, z, alphabet) :: ReportsDecide(x, y, z, c)
  }

  lemma TwoSpelt(j: string, x: Value, k: string, y: Value, alphabet: set<char>)
    requires Spelt(j, alphabet) && Spelt(k, alphabet) && ValueSpelt(x, alphabet) && ValueSpelt(y, alphabet)
    ensures ValueSpelt(Two(j, x, k, y), alphabet)
  {
  }

  /** A collision among environments spelt with these characters. */
  lemma CollisionCounts(j: string, x: Value, x': Value, k: string, y: Value, y': Value,
      alphabet: set<char>, c: Setting)
    requires Spelt(j, alphabet) && Spelt(k, alphabet) && ValueSpelt(x, alphabet) && ValueSpelt(x', alphabet)
    requires ValueSpelt(y, alphabet) && ValueSpelt(y', alphabet)
    requires Collide(Two(j, x, k, y), Two(j, x', k, y), Two(j, x, k, y'), c)
    ensures !ReportsAlwaysDecide(alphabet, c)
  {
    TwoSpelt(j, x, k, y, alphabet);
    TwoSpelt(j, x', k, y, alphabet);
    TwoSpelt(j, x, k, y', alphabet);
    assert Environments(Two(j, x, k, y), Two(j, x', k, y), Two(j, x, k, y'), alphabet);
  }

  lemma DotsCollide(alphabet: set<char>, c: Setting)
    requires c.ignored == {} && '.' in alphabet
    ensures !ReportsAlwaysDecide(alphabet, c)
  {
    var dot := ".";
    var key := Extend(dot, Key(dot));
    JoinedKeyCollides(dot, dot, c);
    OneSpelt(dot, alphabet);
    assert Spelt(key, alphabet);
    CollisionCounts(key, OLD, NEW, dot, One(dot, OLD), One(dot, NEW), alphabet, c);
  }

  lemma OneSpelt(q: string, alphabet: set<char>)
    requires Spelt(q, alphabet)
    ensures ValueSpelt(One(q, OLD), alphabet) && ValueSpelt(One(q, NEW), alphabet)
  {
  }

  lemma BracketsCollide(alphabet: set<char>, c: Setting, d: nat)
    requires c.ignored == {} && '[' in alphabet && ']' in alphabet && d < 10 && DIGITS[d] in alphabet
    ensures !ReportsAlwaysDecide(alphabet, c)
  {
    var p := "[";
    var key, items := Extend(p, Index(d)), Copies(d + 1, One(p, OLD));
    BracketedKeyCollides(p, d, p, c);
    OneSpelt(p, alphabet);
    assert key == p + ("[" + [DIGITS[d]] + "]");
    assert Spelt(key, alphabet);
    CollisionCounts(key, One(p, OLD), One(p, NEW), p, List(items), List(items[d := One(p, NEW)]), alphabet, c);
  }

  /**
   The reported diff determines the other environment, for all environments whose keys are non-empty and
   spelt with these characters, if and only if no dot is among them and no key can hold a list position.
   */
  lemma ReportsDecideExactlyForClearKeys(alphabet: set<char>, c: Setting)
    requires c.ignored == {}
    ensures ReportsAlwaysDecide(alphabet, c) <==> Clear(alphabet)
  {
    if Clear(alphabet) {
      forall x, y, z | Environments(x, y, z, alphabet) ensures ReportsDecide(x, y, z, c) {
        ReportsRebuildTheOther(x, y, z, alphabet, c);
      }
    } else if '.' in alphabet {
      DotsCollide(alphabet, c);
    } else {
      var ch :| ch in DIGITS && ch in alphabet;
      var d :| 0 <= d < |DIGITS| && DIGITS[d] == ch;
      BracketsCollide(alphabet, c, d);
    }
  }

  /** With `x = {"a.b": 0, "a": {"b": 0}}`, changing either of the two entries is reported as a change of "a.b". */
  lemma DottedKeyIsAmbiguous(c: Setting)
    requires c.ignored == {}
    ensures
      var x, y := Two("a.b", OLD, "a", One("b", OLD)), Two("a.b", NEW, "a", One("b", OLD));
      var z := Two("a.b", OLD, "a", One("b", NEW));
      && Reports(Compare(x, y, [], c)) == Reports(Compare(x, z, [], c)) == [Report("a.b", Changed(OLD, NEW))]
      && !Same(y, z, c)
  {
    JoinedKeyCollides("a", "b", c);
    assert Extend("a", Key("b")) == "a.b";
    FirstOfTwo("a.b", OLD, NEW, "a", One("b", OLD), c);
    PrintOneMore([], Key("a.b"));
    assert [] + [Key("a.b")] == [Key("a.b")];
  }
}
