/** The traffic filter history: the twenty filters used last, each once, latest first. */
module FilterHistory {
  import opened Text

  const LIMIT := 20

  function Truncated(s: seq<string>): seq<string> {
    if |s| > LIMIT then s[..LIMIT] else s
  }

  function Without(s: seq<string>, x: string): seq<string> {
    if s == [] then []
    else
      var last := s[|s| - 1];
      Without(s[..|s| - 1], x) + if last == x then [] else [last]
  }

  predicate Distinct(s: seq<string>) {
    forall i, j | 0 <= i < j < |s| :: s[i] != s[j]
  }

  // ---- The history without a limit ----

  /** Moves a filter to the front, trimmed; a blank one changes nothing. */
  function MoveToFront(s: seq<string>, expr: string): seq<string> {
    if Trim(expr) == "" then s else [Trim(expr)] + Without(s, Trim(expr))
  }

  /** The entries trimmed, without blank ones, each where it first occurs. */
  function Sanitized(entries: seq<string>): seq<string> {
    if entries == [] then []
    else
      var front, last := Sanitized(entries[..|entries| - 1]), Trim(entries[|entries| - 1]);
      if last == "" || last in front then front else front + [last]
  }

  datatype Op = Append(expr: string) | Replace(entries: seq<string>) | Clear

  function Unbounded(ops: seq<Op>): seq<string> {
    if ops == [] then []
    else
      match ops[|ops| - 1]
      case Append(expr) => MoveToFront(Unbounded(ops[..|ops| - 1]), expr)
      case Replace(entries) => Sanitized(entries)
      case Clear => []
  }

  // ---- The stored history ----

  function AppendBounded(s: seq<string>, expr: string): seq<string> {
    if Trim(expr) == "" then s else Truncated([Trim(expr)] + Without(s, Trim(expr)))
  }

  class TrafficFilterHistoryDao {
    var entries: seq<string>

    constructor ()
      ensures entries == []
    {
      entries := [];
    }

    method SanitizeEntries(raw: seq<string>) returns (sanitized: seq<string>)
      ensures sanitized == Truncated(Sanitized(raw))
    {
      hide Trim;
      sanitized := [];
      var seen: set<string> := {};
      var i := 0;
      while i < |raw|
        invariant 0 <= i <= |raw| && |sanitized| < LIMIT
        invariant sanitized == Sanitized(raw[..i])
        invariant forall x :: x in seen <==> x in sanitized
      {
        var trimmed := Trim(raw[i]);
        i := i + 1;
        assert raw[..i][..i - 1] == raw[..i - 1] && raw[..i][i - 1] == raw[i - 1];
        if trimmed == "" || trimmed in seen {
          continue;
        }
        seen := seen + {trimmed};
        sanitized := sanitized + [trimmed];
        if |sanitized| >= LIMIT {
          SanitizedGrows(raw, i);
          return;
        }
      }
      assert raw[..i] == raw;
    }

    method Replace(raw: seq<string>)
      modifies this
      ensures entries == Truncated(Sanitized(raw))
    {
      entries := SanitizeEntries(raw);
    }

    method Append(expr: string)
      modifies this
      ensures entries == AppendBounded(old(entries), expr)
    {
      hide Trim;
      var trimmed := Trim(expr);
      if trimmed == "" {
        return;
      }
      var kept: seq<string> := [];
      var i := 0;
      while i < |entries|
        invariant 0 <= i <= |entries| && entries == old(entries)
        invariant kept == Without(entries[..i], trimmed)
      {
        assert entries[..i + 1][..i] == entries[..i] && entries[..i + 1][i] == entries[i];
        if entries[i] != trimmed {
          kept := kept + [entries[i]];
        }
        i := i + 1;
      }
      assert entries[..i] == entries;
      entries := [trimmed] + kept;
      if |entries| > LIMIT {
        entries := entries[..LIMIT];
      }
    }

    method Clear()
      modifies this
      ensures entries == []
    {
      Replace([]);
    }
  }

  function Bounded(ops: seq<Op>): seq<string> {
    if ops == [] then []
    else
      match ops[|ops| - 1]
      case Append(expr) => AppendBounded(Bounded(ops[..|ops| - 1]), expr)
      case Replace(entries) => Truncated(Sanitized(entries))
      case Clear => []
  }

  // ---- Truncating at every step loses nothing within the window ----

  lemma {:induction false} SanitizedGrows(raw: seq<string>, i: nat)
    requires i <= |raw|
    ensures Sanitized(raw[..i]) <= Sanitized(raw)
    decreases |raw|
  {
    hide Trim;
    if i < |raw| {
      SanitizedGrows(raw[..|raw| - 1], i);
      assert raw[..|raw| - 1][..i] == raw[..i];
    } else {
      assert raw[..i] == raw;
    }
  }

  lemma {:induction false} WithoutSkips(s: seq<string>, x: string)
    requires x !in s
    ensures Without(s, x) == s
  {
    if s != [] {
      WithoutSkips(s[..|s| - 1], x);
      assert s == s[..|s| - 1] + [s[|s| - 1]];
    }
  }

  lemma {:induction false} WithoutMembers(s: seq<string>, x: string)
    ensures forall y :: y in Without(s, x) <==> y in s && y != x
  {
    if s != [] {
      WithoutMembers(s[..|s| - 1], x);
      assert s == s[..|s| - 1] + [s[|s| - 1]];
    }
  }

  lemma DistinctSnoc(front: seq<string>, last: string)
    requires Distinct(front) && last !in front
    ensures Distinct(front + [last])
  {
  }

  lemma DistinctCons(first: string, rest: seq<string>)
    requires Distinct(rest) && first !in rest
    ensures Distinct([first] + rest)
  {
  }

  lemma {:induction false} WithoutDistinct(s: seq<string>, x: string)
    requires Distinct(s)
    ensures Distinct(Without(s, x))
  {
    if s != [] {
      var front, last := s[..|s| - 1], s[|s| - 1];
      WithoutDistinct(front, x);
      WithoutMembers(front, x);
      if last == x {
        assert Without(front, x) + [] == Without(front, x);
      } else {
        DistinctSnoc(Without(front, x), last);
      }
    }
  }

  lemma {:induction false} SanitizedIsDistinct(raw: seq<string>)
    ensures Distinct(Sanitized(raw))
  {
    hide Trim;
    if raw != [] {
      SanitizedIsDistinct(raw[..|raw| - 1]);
      var front, last := Sanitized(raw[..|raw| - 1]), Trim(raw[|raw| - 1]);
      if last != "" && last !in front {
        DistinctSnoc(front, last);
      }
    }
  }

  lemma {:induction false} UnboundedIsDistinct(ops: seq<Op>)
    ensures Distinct(Unbounded(ops))
  {
    hide Trim, Without;
    if ops != [] {
      match ops[|ops| - 1]
      case Append(expr) =>
        var s, x := Unbounded(ops[..|ops| - 1]), Trim(expr);
        UnboundedIsDistinct(ops[..|ops| - 1]);
        if x != "" {
          WithoutDistinct(s, x);
          WithoutMembers(s, x);
          DistinctCons(x, Without(s, x));
        }
      case Replace(entries) => SanitizedIsDistinct(entries);
      case Clear =>
    }
  }

  /** Removing an item that occurs once moves the later ones down by one. */
  lemma {:induction false} WithoutPrefix(s: seq<string>, x: string, n: nat)
    requires Distinct(s) && n < |s|
    ensures n <= |Without(s, x)|
    ensures Without(s, x)[..n] == if x in s[..n] then Without(s[..n + 1], x) else s[..n]
  {
    var front, last := s[..|s| - 1], s[|s| - 1];
    if n < |s| - 1 {
      WithoutPrefix(front, x, n);
      assert front[..n] == s[..n] && front[..n + 1] == s[..n + 1];
      assert Without(front, x) <= Without(s, x);
      assert Without(s, x)[..n] == Without(front, x)[..n];
    } else {
      assert s[..n] == front && s[..n + 1] == s;
      if x in front {
        WithoutLength(front, x);
      } else {
        WithoutSkips(front, x);
      }
    }
  }

  lemma {:induction false} WithoutLength(s: seq<string>, x: string)
    requires Distinct(s)
    ensures |Without(s, x)| == |s| - if x in s then 1 else 0
  {
    if s != [] {
      var front, last := s[..|s| - 1], s[|s| - 1];
      WithoutLength(front, x);
      assert s == front + [last];
    }
  }

  lemma CutMove(x: string, w: seq<string>)
    requires |w| >= LIMIT - 1
    ensures Truncated([x] + w) == [x] + w[..LIMIT - 1]
  {
  }

  lemma TruncatedMove(s: seq<string>, x: string)
    requires Distinct(s)
    ensures Truncated([x] + Without(Truncated(s), x)) == Truncated([x] + Without(s, x))
  {
    hide Without, Distinct;
    if |s| > LIMIT {
      FirstOnes(s[..LIMIT], x, s);
      CutMove(x, Without(s[..LIMIT], x));
      CutMove(x, Without(s, x));
    }
  }

  /** Of the twenty first and of all, the same nineteen are left at the front. */
  lemma FirstOnes(t: seq<string>, x: string, s: seq<string>)
    requires Distinct(s) && |s| > LIMIT && t == s[..LIMIT]
    ensures |Without(t, x)| >= LIMIT - 1 && |Without(s, x)| >= LIMIT
    ensures Without(t, x)[..LIMIT - 1] == Without(s, x)[..LIMIT - 1]
  {
    hide Without;
    assert Distinct(t);
    WithoutLength(t, x);
    WithoutLength(s, x);
    WithoutPrefix(s, x, LIMIT - 1);
    WithoutPrefix(t, x, LIMIT - 1);
    assert t[..LIMIT - 1] == s[..LIMIT - 1] && t[..LIMIT] == s[..LIMIT];
  }

  /** After any appends, replacements and clears from the empty history, the stored one is the first twenty
      of the history that was never cut. */
  lemma BoundedIsWindow(ops: seq<Op>)
    ensures Bounded(ops) == if |Unbounded(ops)| <= 20 then Unbounded(ops) else Unbounded(ops)[..20]
  {
    WindowOfUnbounded(ops);
  }

  lemma {:induction false} WindowOfUnbounded(ops: seq<Op>)
    ensures Bounded(ops) == Truncated(Unbounded(ops))
  {
    hide Trim, Without, Truncated;
    if ops == [] {
      ShortIsWhole([]);
    } else {
      match ops[|ops| - 1]
      case Append(expr) =>
        WindowOfUnbounded(ops[..|ops| - 1]);
        UnboundedIsDistinct(ops[..|ops| - 1]);
        TruncatedMove(Unbounded(ops[..|ops| - 1]), Trim(expr));
      case Replace(entries) =>
      case Clear => ShortIsWhole([]);
    }
  }

  lemma ShortIsWhole(s: seq<string>)
    requires |s| <= LIMIT
    ensures Truncated(s) == s
  {
  }

  // ---- The uncut history lists what was used, latest first ----

  /** The last append of a filter. */
  function LastUse(exprs: seq<string>, x: string): int {
    if exprs == [] then -1
    else if Trim(exprs[|exprs| - 1]) == x then |exprs| - 1
    else LastUse(exprs[..|exprs| - 1], x)
  }

  function Appends(exprs: seq<string>): (ops: seq<Op>)
    ensures |ops| == |exprs|
  {
    if exprs == [] then [] else Appends(exprs[..|exprs| - 1]) + [Append(exprs[|exprs| - 1])]
  }

  ghost predicate ByLastUse(s: seq<string>, exprs: seq<string>) {
    (forall x :: x in s <==> x != "" && LastUse(exprs, x) >= 0) && Ordered(s, exprs)
  }

  predicate Ordered(s: seq<string>, exprs: seq<string>) {
    forall i, j | 0 <= i < j < |s| :: LastUse(exprs, s[i]) > LastUse(exprs, s[j])
  }

  lemma {:induction false} LastUseIsEarlier(exprs: seq<string>, x: string)
    ensures -1 <= LastUse(exprs, x) < |exprs|
  {
    hide Trim;
    if exprs != [] {
      LastUseIsEarlier(exprs[..|exprs| - 1], x);
    }
  }

  predicate UsedAfter(s: seq<string>, x: string, exprs: seq<string>) {
    forall y | y in s :: LastUse(exprs, y) > LastUse(exprs, x)
  }

  lemma OrderedSnoc(front: seq<string>, last: string, exprs: seq<string>)
    ensures Ordered(front + [last], exprs) <==> Ordered(front, exprs) && UsedAfter(front, last, exprs)
  {
    hide LastUse;
    var all := front + [last];
    if Ordered(all, exprs) {
      forall i, j | 0 <= i < j < |front| ensures LastUse(exprs, front[i]) > LastUse(exprs, front[j]) {
        assert all[i] == front[i] && all[j] == front[j];
      }
      forall y | y in front ensures LastUse(exprs, y) > LastUse(exprs, last) {
        var i :| 0 <= i < |front| && front[i] == y;
        assert all[i] == y && all[|front|] == last;
      }
    }
  }

  /** Removing an item keeps the order of the others. */
  lemma {:induction false} WithoutKeepsOrder(s: seq<string>, x: string, exprs: seq<string>)
    requires Ordered(s, exprs)
    ensures Ordered(Without(s, x), exprs)
  {
    hide LastUse, Ordered;
    if s != [] {
      var front, last := s[..|s| - 1], s[|s| - 1];
      assert s == front + [last];
      OrderedSnoc(front, last, exprs);
      WithoutKeepsOrder(front, x, exprs);
      WithoutMembers(front, x);
      OrderedSnoc(Without(front, x), last, exprs);
      assert Without(front, x) + [] == Without(front, x);
    } else {
      assert Without(s, x) == s;
    }
  }

  /** From appends alone: every filter that is not blank, each once, in the order of last use. */
  lemma {:induction false} UnboundedIsByLastUse(exprs: seq<string>)
    ensures ByLastUse(Unbounded(Appends(exprs)), exprs)
  {
    hide Trim, Without;
    if exprs != [] {
      var n := |exprs| - 1;
      var front, x := exprs[..n], Trim(exprs[n]);
      UnboundedIsByLastUse(front);
      var s, ops := Unbounded(Appends(front)), Appends(exprs);
      assert ops[..|ops| - 1] == Appends(front);
      var r := Unbounded(ops);
      assert r == MoveToFront(s, exprs[n]);
      assert forall y :: LastUse(exprs, y) == if y == x then n else LastUse(front, y);
      if x != "" {
        WithoutMembers(s, x);
        WithoutKeepsOrder(s, x, front);
        MovedIsByLastUse(s, x, front, exprs);
      }
    }
  }

  lemma MovedIsByLastUse(s: seq<string>, x: string, front: seq<string>, exprs: seq<string>)
    requires ByLastUse(s, front) && x != "" && exprs != [] && front == exprs[..|exprs| - 1]
    requires forall y :: LastUse(exprs, y) == if y == x then |front| else LastUse(front, y)
    ensures ByLastUse([x] + Without(s, x), exprs)
  {
    hide LastUse, Without;
    WithoutMembers(s, x);
    WithoutKeepsOrder(s, x, front);
    var w := Without(s, x);
    forall y | y in w ensures LastUse(exprs, x) > LastUse(exprs, y) {
      LastUseIsEarlier(front, y);
    }
    assert x !in w;
    forall i, j | 0 <= i < j < |w| ensures LastUse(exprs, w[i]) > LastUse(exprs, w[j]) {
      assert w[i] in w && w[j] in w;
    }
    OrderedCons(x, w, exprs);
    forall y ensures y in [x] + w <==> y != "" && LastUse(exprs, y) >= 0 {
      LastUseIsEarlier(front, y);
    }
  }

  lemma OrderedCons(first: string, rest: seq<string>, exprs: seq<string>)
    requires Ordered(rest, exprs) && forall y | y in rest :: LastUse(exprs, first) > LastUse(exprs, y)
    ensures Ordered([first] + rest, exprs)
  {
    hide LastUse;
  }

  // ---- What a replacement keeps ----

  /** The first entry that trims to a text. */
  predicate FirstAt(entries: seq<string>, x: string, i: nat) {
    i < |entries| && Trim(entries[i]) == x && forall j | 0 <= j < i :: Trim(entries[j]) != x
  }

  /** Where each of the texts kept comes from: what an entry trims to, not blank, the first of its kind, in the
      order of the entries; and every such entry is there. */
  ghost predicate FirstOfEach(entries: seq<string>, kept: seq<string>, at: seq<nat>) {
    && |at| == |kept|
    && (forall i | 0 <= i < |at| :: kept[i] != "" && FirstAt(entries, kept[i], at[i]))
    && (forall i, j | 0 <= i < j < |at| :: at[i] < at[j])
    && forall n | 0 <= n < |entries| && Trim(entries[n]) != "" :: Trim(entries[n]) in kept
  }

  /** A history that is replaced has exactly the entries that are not blank, trimmed, each once, in the order in
      which they first occur. */
  lemma {:induction false} SanitizedIs(entries: seq<string>) returns (at: seq<nat>)
    ensures FirstOfEach(entries, Sanitized(entries), at)
  {
    hide Trim;
    if entries == [] {
      at := [];
    } else {
      var n := |entries| - 1;
      var front, last := entries[..n], Trim(entries[n]);
      var before := SanitizedIs(front);
      var kept := Sanitized(front);
      EarlierFirsts(entries, kept, before);
      if last == "" || last in kept {
        at := before;
      } else {
        at := before + [n];
        LastIsFirst(entries, kept, before);
      }
    }
  }

  /** The first of each among all entries but the last, placed among all. */
  ghost predicate FirstsBefore(entries: seq<string>, kept: seq<string>, at: seq<nat>) {
    && |at| == |kept|
    && (forall i | 0 <= i < |at| :: kept[i] != "" && FirstAt(entries, kept[i], at[i]) && at[i] < |entries| - 1)
    && (forall i, j | 0 <= i < j < |at| :: at[i] < at[j])
    && forall n | 0 <= n < |entries| - 1 && Trim(entries[n]) != "" :: Trim(entries[n]) in kept
  }

  lemma EarlierFirsts(entries: seq<string>, kept: seq<string>, at: seq<nat>)
    requires entries != [] && FirstOfEach(entries[..|entries| - 1], kept, at)
    ensures FirstsBefore(entries, kept, at)
    ensures Trim(entries[|entries| - 1]) == "" || Trim(entries[|entries| - 1]) in kept ==>
              FirstOfEach(entries, kept, at)
  {
    hide Trim;
    var front := entries[..|entries| - 1];
    assert forall i | 0 <= i < |front| :: front[i] == entries[i];
    assert forall i | 0 <= i < |at| :: FirstAt(front, kept[i], at[i]);
  }

  lemma LastIsFirst(entries: seq<string>, kept: seq<string>, at: seq<nat>)
    requires entries != [] && FirstsBefore(entries, kept, at)
    requires var last := Trim(entries[|entries| - 1]); last != "" && last !in kept
    ensures FirstOfEach(entries, kept + [Trim(entries[|entries| - 1])], at + [|entries| - 1])
  {
    hide Trim;
  }
}
