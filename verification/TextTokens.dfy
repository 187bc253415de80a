/**
 The token estimate of a text (src/xgen_agent_runtime/core/text_tokens.py): runs of characters of one
 class, each run with its price, and the cache of recent estimates. Prices are exact rationals.
 */
module TextTokens {

  datatype Kind = Space | Newline | Digit | Latin | Hangul | Cjk | Punct | Symbol

  /** `isLetter` is the Unicode letter category, asked only outside ASCII. */
  datatype Setting = Setting(isLetter: char -> bool, hangul: real)

  function KindOf(ch: char, c: Setting): Kind
  {
    var code := ch as int;
    if ch == ' ' || ch == '\t' then Space
    else if ch == '\r' || ch == '\n' then Newline
    else if '0' <= ch <= '9' then Digit
    else if 'a' <= ch <= 'z' || 'A' <= ch <= 'Z' then Latin
    else if 0xAC00 <= code <= 0xD7A3 || 0x1100 <= code <= 0x11FF || 0x3130 <= code <= 0x318F then Hangul
    else if 0x4E00 <= code <= 0x9FFF || 0x3400 <= code <= 0x4DBF then Cjk
    else if 0x3040 <= code <= 0x30FF then Cjk
    else if code < 0x80 then Punct
    else if c.isLetter(ch) then Latin
    else Symbol
  }

  function AtLeastOne(x: real): real { if x < 1.0 then 1.0 else x }

  /** `n` times a price, one after the other. */
  function Times(n: nat, price: real): real
  {
    if n == 0 then 0.0 else Times(n - 1, price) + price
  }

  lemma {:induction false} TimesIsTheProduct(n: nat, price: real)
    ensures Times(n, price) == n as real * price
  {
    if n > 0 {
      TimesIsTheProduct(n - 1, price);
      var k := (n - 1) as real;
      assert n as real == k + 1.0 && (k + 1.0) * price == k * price + price;
    }
  }

  /** The price of a run of `n` characters of one class. */
  function Price(kind: Kind, n: nat, c: Setting): real
    requires n > 0
  {
    var run := n as real;
    match kind
    case Latin => AtLeastOne(run / 7.0)
    case Digit => AtLeastOne(run / 3.0)
    case Hangul => Times(n, c.hangul)
    case Cjk => run
    case Space => (run - 1.0) * 0.25
    case Newline => run
    case Punct => run * 0.6
    case Symbol => run * 2.0
  }

  /** Where the run of `kind` that reaches position `i` ends. */
  function RunEnd(text: string, i: nat, kind: Kind, c: Setting): (end: nat)
    requires i <= |text|
    ensures i <= end <= |text|
    decreases |text| - i
  {
    if i < |text| && KindOf(text[i], c) == kind then RunEnd(text, i + 1, kind, c) else i
  }

  /** The unrounded estimate of the text from position `i` on, where a run starts. */
  function RawFrom(text: string, i: nat, c: Setting): real
    requires i <= |text|
    decreases |text| - i
  {
    if i == |text| then 0.0
    else
      var end := RunEnd(text, i + 1, KindOf(text[i], c), c);
      Price(KindOf(text[i], c), end - i, c) + RawFrom(text, end, c)
  }

  function Raw(text: string, c: Setting): real { RawFrom(text, 0, c) }

  function Estimate(text: string, c: Setting): int
  {
    if text == "" then 0
    else if (Raw(text, c) + 0.5).Floor < 1 then 1
    else (Raw(text, c) + 0.5).Floor
  }

  method EstimateTokens(text: string, c: Setting) returns (tokens: int)
    ensures tokens == Estimate(text, c)
  {
    if text == "" {
      return 0;
    }
    var total, index := 0.0, 0;
    while index < |text|
      invariant 0 <= index <= |text|
      invariant total + RawFrom(text, index, c) == Raw(text, c)
    {
      var kind := KindOf(text[index], c);
      var end := index + 1;
      while end < |text| && KindOf(text[end], c) == kind
        invariant index < end <= |text|
        invariant RunEnd(text, end, kind, c) == RunEnd(text, index + 1, kind, c)
      {
        end := end + 1;
      }
      total := total + Price(kind, end - index, c);
      index := end;
    }
    tokens := (total + 0.5).Floor;
    if tokens < 1 {
      tokens := 1;
    }
  }

  // ---- The estimate is nearly additive ----

  lemma {:induction false} RunEndShifts(a: string, b: string, j: nat, kind: Kind, c: Setting)
    requires j <= |b|
    ensures RunEnd(a + b, |a| + j, kind, c) == |a| + RunEnd(b, j, kind, c)
    decreases |b| - j
  {
    if j < |b| {
      assert (a + b)[|a| + j] == b[j];
      RunEndShifts(a, b, j + 1, kind, c);
    }
  }

  lemma {:induction false} RunEndJoins(a: string, b: string, i: nat, kind: Kind, c: Setting)
    requires i <= |a|
    ensures RunEnd(a + b, i, kind, c) ==
      if RunEnd(a, i, kind, c) < |a| then RunEnd(a, i, kind, c) else |a| + RunEnd(b, 0, kind, c)
    decreases |a| - i
  {
    if i == |a| {
      RunEndShifts(a, b, 0, kind, c);
    } else {
      assert (a + b)[i] == a[i];
      if KindOf(a[i], c) == kind {
        RunEndJoins(a, b, i + 1, kind, c);
      }
    }
  }

  lemma {:induction false} RawShifts(a: string, b: string, j: nat, c: Setting)
    requires j <= |b|
    ensures RawFrom(a + b, |a| + j, c) == RawFrom(b, j, c)
    decreases |b| - j
  {
    if j < |b| {
      assert (a + b)[|a| + j] == b[j];
      var end := RunEnd(b, j + 1, KindOf(b[j], c), c);
      RunEndShifts(a, b, j + 1, KindOf(b[j], c), c);
      RawShifts(a, b, end, c);
    }
  }

  lemma {:induction false} TimesAdds(n: nat, m: nat, price: real)
    ensures Times(n + m, price) == Times(n, price) + Times(m, price)
    decreases m
  {
    if m > 0 {
      TimesAdds(n, m - 1, price);
    }
  }

  ghost predicate Near(joined: real, left: real, right: real) { -1.0 <= joined - left - right <= 0.25 }

  /** Joining two runs of one class changes their price by between -1 and a quarter. */
  lemma PricesJoin(kind: Kind, n: nat, m: nat, c: Setting)
    requires n > 0 && m > 0
    ensures Near(Price(kind, n + m, c), Price(kind, n, c), Price(kind, m, c))
  {
    assert (n + m) as real == n as real + m as real;
    TimesAdds(n, m, c.hangul);
  }

  lemma FirstRun(text: string, i: nat, kind: Kind, end: nat, c: Setting)
    requires i < |text| && kind == KindOf(text[i], c) && end == RunEnd(text, i + 1, kind, c)
    ensures RawFrom(text, i, c) == Price(kind, end - i, c) + RawFrom(text, end, c)
  {
  }

  /** The last run of `a` stays a run of its own when `b` goes on differently. */
  lemma LastRunEnds(a: string, b: string, i: nat, kind: Kind, c: Setting)
    requires i < |a| && kind == KindOf(a[i], c) && RunEnd(a, i + 1, kind, c) == |a|
    requires b == "" || KindOf(b[0], c) != kind
    ensures RawFrom(a + b, i, c) == Price(kind, |a| - i, c) + Raw(b, c)
  {
    assert (a + b)[i] == a[i];
    RunEndJoins(a, b, i + 1, kind, c);
    RawShifts(a, b, 0, c);
    FirstRun(a + b, i, kind, |a|, c);
  }

  /** Otherwise it swallows the first run of `b`. */
  lemma LastRunGoesOn(a: string, b: string, i: nat, kind: Kind, m: nat, c: Setting)
    requires i < |a| && kind == KindOf(a[i], c) && RunEnd(a, i + 1, kind, c) == |a|
    requires b != "" && KindOf(b[0], c) == kind && m == RunEnd(b, 1, kind, c)
    ensures RawFrom(a + b, i, c) == Price(kind, |a| - i + m, c) + RawFrom(b, m, c)
  {
    assert (a + b)[i] == a[i];
    RunEndJoins(a, b, i + 1, kind, c);
    assert RunEnd(b, 0, kind, c) == m;
    RawShifts(a, b, m, c);
    FirstRun(a + b, i, kind, |a| + m, c);
  }

  lemma NearWithRest(joined: real, left: real, right: real, rest: real)
    requires Near(joined, left, right)
    ensures Near(joined + rest, left, right + rest)
  {
  }

  /** The last run of `a` meets the first run of `b`: only there can the estimates differ. */
  lemma SeamAt(a: string, b: string, i: nat, kind: Kind, c: Setting)
    requires i < |a| && kind == KindOf(a[i], c) && RunEnd(a, i + 1, kind, c) == |a|
    ensures Near(RawFrom(a + b, i, c), RawFrom(a, i, c), Raw(b, c))
  {
    FirstRun(a, i, kind, |a|, c);
    assert RawFrom(a, |a|, c) == 0.0;
    if b == "" || KindOf(b[0], c) != kind {
      LastRunEnds(a, b, i, kind, c);
    } else {
      SeamJoined(a, b, i, kind, RunEnd(b, 1, kind, c), c);
    }
  }

  lemma SeamJoined(a: string, b: string, i: nat, kind: Kind, m: nat, c: Setting)
    requires i < |a| && kind == KindOf(a[i], c) && RunEnd(a, i + 1, kind, c) == |a|
    requires b != "" && KindOf(b[0], c) == kind && m == RunEnd(b, 1, kind, c)
    ensures Near(RawFrom(a + b, i, c), Price(kind, |a| - i, c), Raw(b, c))
  {
    LastRunGoesOn(a, b, i, kind, m, c);
    FirstRun(b, 0, kind, m, c);
    PricesJoin(kind, |a| - i, m, c);
    NearWithRest(Price(kind, |a| - i + m, c), Price(kind, |a| - i, c), Price(kind, m, c), RawFrom(b, m, c));
  }

  lemma {:induction false} NearlyAdditiveFrom(a: string, b: string, i: nat, c: Setting)
    requires i <= |a|
    ensures Near(RawFrom(a + b, i, c), RawFrom(a, i, c), Raw(b, c))
    decreases |a| - i
  {
    if i == |a| {
      RawShifts(a, b, 0, c);
    } else {
      var kind := KindOf(a[i], c);
      var end := RunEnd(a, i + 1, kind, c);
      if end == |a| {
        SeamAt(a, b, i, kind, c);
      } else {
        NearlyAdditiveFrom(a, b, end, c);
        SameFirstRun(a, b, i, kind, end, c);
      }
    }
  }

  /** A run that ends inside `a` is the same run in `a + b`. */
  lemma SameFirstRun(a: string, b: string, i: nat, kind: Kind, end: nat, c: Setting)
    requires i < |a| && kind == KindOf(a[i], c) && end == RunEnd(a, i + 1, kind, c) < |a|
    ensures RawFrom(a, i, c) == Price(kind, end - i, c) + RawFrom(a, end, c)
    ensures RawFrom(a + b, i, c) == Price(kind, end - i, c) + RawFrom(a + b, end, c)
  {
    assert (a + b)[i] == a[i];
    RunEndJoins(a, b, i + 1, kind, c);
    FirstRun(a, i, kind, end, c);
    FirstRun(a + b, i, kind, end, c);
  }

  /** For every split of a text and every Hangul price, the parts' estimates add up to within one token. */
  lemma NearlyAdditive(a: string, b: string, c: Setting)
    ensures -1.0 <= Raw(a + b, c) - Raw(a, c) - Raw(b, c) <= 0.25
  {
    NearlyAdditiveFrom(a, b, 0, c);
  }

  lemma {:induction false} RawIsBounded(text: string, i: nat, c: Setting)
    requires i <= |text| && 0.0 <= c.hangul <= 2.0
    ensures 0.0 <= RawFrom(text, i, c) <= 2.0 * (|text| - i) as real
    decreases |text| - i
  {
    if i < |text| {
      var end := RunEnd(text, i + 1, KindOf(text[i], c), c);
      RawIsBounded(text, end, c);
      PriceIsBounded(KindOf(text[i], c), end - i, c);
    }
  }

  lemma {:induction false} TimesIsBounded(n: nat, price: real)
    requires 0.0 <= price <= 2.0
    ensures 0.0 <= Times(n, price) <= 2.0 * n as real
  {
    if n > 0 {
      TimesIsBounded(n - 1, price);
    }
  }

  lemma PriceIsBounded(kind: Kind, n: nat, c: Setting)
    requires n > 0 && 0.0 <= c.hangul <= 2.0
    ensures 0.0 <= Price(kind, n, c) <= 2.0 * n as real
  {
    assert n as real >= 1.0;
    TimesIsBounded(n, c.hangul);
  }

  /** A non-empty text counts at least one token and at most two per character, with either Hangul price. */
  lemma EstimateIsBounded(text: string, c: Setting)
    requires text != "" && 0.0 <= c.hangul <= 2.0
    ensures 1 <= Estimate(text, c) <= 2 * |text|
  {
    RawIsBounded(text, 0, c);
  }

  // ---- The cache of recent estimates ----

  const MIN_CHARS := 512
  const MAX_ENTRIES: nat := 16384

  datatype Slot = Slot(hash: int, length: nat)

  function SlotOf(text: string, hash: string -> int): Slot { Slot(hash(text), |text|) }

  function Remove(slots: seq<Slot>, s: Slot): seq<Slot>
  {
    if slots == [] then []
    else (if slots[0] == s then [] else [slots[0]]) + Remove(slots[1..], s)
  }

  function Touch(slots: seq<Slot>, s: Slot): seq<Slot> { Remove(slots, s) + [s] }

  /** The slots among the first `n` uses, each once, the most recently used last. */
  function Recent(uses: seq<Slot>, n: nat): seq<Slot>
    requires n <= |uses|
  {
    if n == 0 then [] else Touch(Recent(uses, n - 1), uses[n - 1])
  }

  /** The newest `max` entries. */
  function Window(slots: seq<Slot>, max: nat): seq<Slot>
  {
    if |slots| <= max then slots else slots[|slots| - max..]
  }

  ghost predicate Distinct(slots: seq<Slot>)
  {
    forall i, j | 0 <= i < j < |slots| :: slots[i] != slots[j]
  }

  lemma {:induction false} RemoveFacts(slots: seq<Slot>, s: Slot)
    ensures forall t :: t in Remove(slots, s) <==> t in slots && t != s
    ensures s !in slots ==> Remove(slots, s) == slots
    ensures Distinct(slots) ==> Distinct(Remove(slots, s))
    ensures Distinct(slots) && s in slots ==> |Remove(slots, s)| == |slots| - 1
  {
    if slots != [] {
      RemoveFacts(slots[1..], s);
      assert slots == [slots[0]] + slots[1..];
      if Distinct(slots) {
        assert Distinct(slots[1..]) && slots[0] !in slots[1..];
      }
    }
  }

  lemma {:induction false} RemoveJoin(a: seq<Slot>, b: seq<Slot>, s: Slot)
    ensures Remove(a + b, s) == Remove(a, s) + Remove(b, s)
  {
    if a == [] {
      assert a + b == b;
    } else {
      assert (a + b)[0] == a[0] && (a + b)[1..] == a[1..] + b;
      RemoveJoin(a[1..], b, s);
    }
  }

  lemma SplitWindow(slots: seq<Slot>, max: nat)
    ensures
      var kept := Window(slots, max);
      var older := slots[..|slots| - |kept|];
      slots == older + kept && |kept| <= max && (|kept| == max || older == [])
  {
  }

  /** Only the newest entries show, whatever is older. */
  lemma WindowOfJoin(older: seq<Slot>, kept: seq<Slot>, max: nat)
    requires |kept| >= max || older == []
    ensures Window(older + kept, max) == Window(kept, max)
  {
  }

  lemma TouchSplits(older: seq<Slot>, kept: seq<Slot>, s: Slot)
    ensures Touch(older + kept, s) == Remove(older, s) + Touch(kept, s)
  {
    RemoveJoin(older, kept, s);
  }

  lemma TouchHit(older: seq<Slot>, kept: seq<Slot>, s: Slot, max: nat)
    requires Distinct(older + kept) && s in kept && |kept| <= max && (|kept| == max || older == [])
    ensures Window(Touch(older + kept, s), max) == Touch(kept, s)
  {
    DistinctParts(older, kept);
    NotInBoth(older, kept, s);
    RemoveFacts(older, s);
    RemoveFacts(kept, s);
    TouchSplits(older, kept, s);
    WindowOfJoin(older, Touch(kept, s), max);
  }

  lemma TouchMiss(older: seq<Slot>, kept: seq<Slot>, s: Slot, max: nat)
    requires s !in kept && |kept| <= max && (|kept| == max || older == [])
    ensures Window(Touch(older + kept, s), max) == Window(kept + [s], max)
  {
    RemoveFacts(kept, s);
    TouchSplits(older, kept, s);
    WindowOfJoin(Remove(older, s), kept + [s], max);
  }

  lemma DistinctParts(a: seq<Slot>, b: seq<Slot>)
    requires Distinct(a + b)
    ensures Distinct(a) && Distinct(b)
  {
    forall i, j | 0 <= i < j < |a| ensures a[i] != a[j] {
      assert (a + b)[i] != (a + b)[j];
    }
    forall i, j | 0 <= i < j < |b| ensures b[i] != b[j] {
      assert (a + b)[|a| + i] != (a + b)[|a| + j];
    }
  }

  /**
   Using a slot moves it to the end of all slots used; seen through the window that is what the cache
   does: move a hit to the end, append a miss and let the oldest go.
   */
  lemma WindowTouch(all: seq<Slot>, s: Slot, max: nat)
    requires Distinct(all)
    ensures
      var kept := Window(all, max);
      Window(Touch(all, s), max) == if s in kept then Touch(kept, s) else Window(kept + [s], max)
  {
    var kept := Window(all, max);
    SplitWindow(all, max);
    if s in kept {
      TouchHit(all[..|all| - |kept|], kept, s, max);
    } else {
      TouchMiss(all[..|all| - |kept|], kept, s, max);
    }
  }

  lemma NotInBoth(a: seq<Slot>, b: seq<Slot>, s: Slot)
    requires Distinct(a + b) && s in b
    ensures s !in a
  {
    var j :| 0 <= j < |b| && b[j] == s;
    forall i | 0 <= i < |a| ensures a[i] != s {
      assert (a + b)[i] == a[i] && (a + b)[|a| + j] == s;
    }
  }

  lemma {:induction false} RecentFacts(uses: seq<Slot>, n: nat)
    requires n <= |uses|
    ensures Distinct(Recent(uses, n))
    ensures forall s :: s in Recent(uses, n) <==> s in uses[..n]
  {
    if n > 0 {
      RecentFacts(uses, n - 1);
      RemoveFacts(Recent(uses, n - 1), uses[n - 1]);
      assert uses[..n] == uses[..n - 1] + [uses[n - 1]];
    }
  }

  /** The position of the last use. */
  function LastUse(uses: seq<Slot>, n: nat, s: Slot): int
    requires n <= |uses|
  {
    if n == 0 then -1 else if uses[n - 1] == s then n - 1 else LastUse(uses, n - 1, s)
  }

  lemma {:induction false} LastUseIsEarlier(uses: seq<Slot>, n: nat, s: Slot)
    requires n <= |uses|
    ensures LastUse(uses, n, s) < n
  {
    if n > 0 {
      LastUseIsEarlier(uses, n - 1, s);
    }
  }

  /** Each slot was last used before all that follow it. */
  ghost predicate ByLastUse(slots: seq<Slot>, uses: seq<Slot>, n: nat)
    requires n <= |uses|
  {
    slots != [] ==>
      && (forall t | t in slots[1..] :: LastUse(uses, n, slots[0]) < LastUse(uses, n, t))
      && ByLastUse(slots[1..], uses, n)
  }

  lemma {:induction false} RemoveKeepsOrder(slots: seq<Slot>, s: Slot, uses: seq<Slot>, n: nat)
    requires n <= |uses| && ByLastUse(slots, uses, n)
    ensures ByLastUse(Remove(slots, s), uses, n)
  {
    if slots != [] {
      RemoveKeepsOrder(slots[1..], s, uses, n);
      RemoveFacts(slots[1..], s);
      if slots[0] != s {
        assert Remove(slots, s)[1..] == Remove(slots[1..], s);
      } else {
        assert Remove(slots, s) == Remove(slots[1..], s);
      }
    }
  }

  /** Using another slot puts it behind all others and leaves their order. */
  lemma {:induction false} UseGoesLast(slots: seq<Slot>, uses: seq<Slot>, n: nat)
    requires 0 < n <= |uses| && ByLastUse(slots, uses, n - 1) && uses[n - 1] !in slots
    ensures ByLastUse(slots + [uses[n - 1]], uses, n)
  {
    var all := slots + [uses[n - 1]];
    if slots != [] {
      UseGoesLast(slots[1..], uses, n);
      assert all[0] == slots[0] && all[1..] == slots[1..] + [uses[n - 1]];
      LastUseIsEarlier(uses, n - 1, slots[0]);
      forall t | t in all[1..] ensures LastUse(uses, n, all[0]) < LastUse(uses, n, t) {
        assert t in slots[1..] || t == uses[n - 1];
        assert slots[0] in slots && (t in slots[1..] ==> t in slots);
      }
    } else {
      assert all[1..] == [] && ByLastUse(all[1..], uses, n);
    }
  }

  /** "Recent" means recent: the slots stand in the order of their last use. */
  lemma {:induction false} RecentIsByLastUse(uses: seq<Slot>, n: nat)
    requires n <= |uses|
    ensures ByLastUse(Recent(uses, n), uses, n)
  {
    if n > 0 {
      RecentIsByLastUse(uses, n - 1);
      RemoveKeepsOrder(Recent(uses, n - 1), uses[n - 1], uses, n - 1);
      RemoveFacts(Recent(uses, n - 1), uses[n - 1]);
      UseGoesLast(Remove(Recent(uses, n - 1), uses[n - 1]), uses, n);
    }
  }

  /** No two different texts of one length hash alike. */
  ghost predicate NoCollisions(hash: string -> int)
  {
    forall s: string, t: string | SlotOf(s, hash) == SlotOf(t, hash) :: s == t
  }

  /** Estimates by slot, oldest use first. `uses` and `source` record the run. */
  class TokenCache {
    const hash: string -> int
    const setting: Setting
    var slots: seq<Slot>
    var values: map<Slot, int>
    ghost var uses: seq<Slot>
    ghost var source: map<Slot, string>

    ghost predicate Valid()
      reads this
    {
      && slots == Window(Recent(uses, |uses|), MAX_ENTRIES)
      && (forall s :: s in slots <==> s in values)
      && (forall s | s in values ::
            s in source && SlotOf(source[s], hash) == s && values[s] == Estimate(source[s], setting))
    }

    constructor (hash: string -> int, setting: Setting)
      ensures Valid() && uses == [] && this.hash == hash && this.setting == setting
    {
      this.hash, this.setting := hash, setting;
      slots, values, uses, source := [], map[], [], map[];
    }

    /** A hit becomes the most recent entry. */
    method MoveToEnd(slot: Slot)
      requires Valid() && slot in values
      modifies `slots, `uses
      ensures Valid() && uses == old(uses) + [slot]
    {
      OneMoreUse(uses, slot, MAX_ENTRIES);
      slots := Touch(slots, slot);
      uses := uses + [slot];
    }

    /** A miss is added behind all others, and the oldest entry goes when there are too many. */
    method Insert(slot: Slot, tokens: int, ghost text: string)
      requires Valid() && slot !in values && SlotOf(text, hash) == slot && tokens == Estimate(text, setting)
      modifies `slots, `values, `uses, `source
      ensures Valid() && uses == old(uses) + [slot]
    {
      OneMoreUse(uses, slot, MAX_ENTRIES);
      AddBehind(slots, slot);
      slots, values, source := slots + [slot], values[slot := tokens], source[slot := text];
      if |slots| > MAX_ENTRIES {
        values := map s | s in values && s != slots[0] :: values[s];
        DropFirst(slots);
        slots := slots[1..];
      }
      uses := uses + [slot];
    }

    /**
     The plain estimate, from the cache when it is there. The cache holds the slots of the long texts
     used most recently, at most 16,384, and nothing else.
     */
    method EstimateCached(text: string) returns (tokens: int)
      requires Valid()
      modifies this
      ensures Valid() && |slots| <= MAX_ENTRIES
      ensures uses == if |text| < MIN_CHARS then old(uses) else old(uses) + [SlotOf(text, hash)]
      ensures exists t :: SlotOf(t, hash) == SlotOf(text, hash) && tokens == Estimate(t, setting)
      ensures NoCollisions(hash) ==> tokens == Estimate(text, setting)
    {
      if |text| < MIN_CHARS {
        tokens := EstimateTokens(text, setting);
        return;
      }
      var slot := SlotOf(text, hash);
      if slot in values {
        tokens := values[slot];
        SameSlot(source[slot], text, hash);
        MoveToEnd(slot);
        return;
      }
      tokens := EstimateTokens(text, setting);
      Insert(slot, tokens, text);
    }
  }

  lemma SameSlot(s: string, t: string, hash: string -> int)
    requires SlotOf(s, hash) == SlotOf(t, hash)
    ensures NoCollisions(hash) ==> s == t
  {
  }

  lemma AddBehind(slots: seq<Slot>, s: Slot)
    requires Distinct(slots) && s !in slots
    ensures Distinct(slots + [s]) && forall t :: t in slots + [s] <==> t in slots || t == s
  {
  }

  lemma DropFirst(slots: seq<Slot>)
    requires slots != [] && Distinct(slots)
    ensures forall t :: t in slots[1..] <==> t in slots && t != slots[0]
  {
  }

  lemma OneMoreUse(uses: seq<Slot>, s: Slot, max: nat)
    requires max > 0
    ensures
      var kept := Window(Recent(uses, |uses|), max);
      var more := uses + [s];
      && Window(Recent(more, |more|), max) == (if s in kept then Touch(kept, s) else Window(kept + [s], max))
      && Distinct(kept) && |kept| <= max && (forall t :: t in Touch(kept, s) <==> t in kept || t == s)
  {
    var more := uses + [s];
    SameUses(uses, s, |uses|);
    RecentFacts(uses, |uses|);
    WindowTouch(Recent(uses, |uses|), s, max);
    RemoveFacts(Window(Recent(uses, |uses|), max), s);
  }

  lemma {:induction false} SameUses(uses: seq<Slot>, s: Slot, n: nat)
    requires n <= |uses|
    ensures Recent(uses + [s], n) == Recent(uses, n)
  {
    if n > 0 {
      SameUses(uses, s, n - 1);
    }
  }
}
