/** The rules cache never shows: reading through it gives what a load of the directory would give. */
module RulesCacheRuns {
  import opened Wrappers
  import opened DslAst
  import opened Compile
  import opened RequestRules
  import opened RulesCache

  // ---- Runs in which every write is noticed ----

  ghost predicate Run(g: LeafGrammar, ops: seq<Op>, states: seq<Store>) {
    && |states| == |ops| + 1
    && states[0].cache == None
    && forall i | 0 <= i < |ops| :: StepTo(g, ops[i], states[i], states[i + 1])
  }

  /** A rule file is written when nothing is cached, or with a time later than all that the cache has seen. */
  predicate Noticed(s: Store, op: Op) {
    op.Write? && IsRuleFile(op.name) ==> s.cache.None? || op.mtime > s.cache.value.fingerprint.maxMtime
  }

  predicate InvalidatedNext(ops: seq<Op>, i: nat) {
    i + 1 < |ops| && ops[i + 1] == Invalidate
  }

  /** Every write is noticed, or followed at once by an invalidation, as the store's own writes are. */
  predicate Watchful(ops: seq<Op>, states: seq<Store>)
    requires |states| == |ops| + 1
  {
    forall i | 0 <= i < |ops| :: Noticed(states[i], ops[i]) || InvalidatedNext(ops, i)
  }

  // ---- Two directories with the same rule files ----

  ghost predicate SameRules(a: Directory, b: Directory) {
    RuleFiles(a) == RuleFiles(b) && forall name | name in RuleFiles(a) :: a[name] == b[name]
  }

  /** Every rule file is the one in the snapshot, or was written later. */
  ghost predicate Grew(snap: Directory, at: nat, dir: Directory) {
    forall name | name in RuleFiles(dir) :: (name in RuleFiles(snap) && dir[name] == snap[name]) || dir[name].mtime > at
  }

  /** A fingerprint that still holds means that no rule file changed, came or went. */
  lemma SameFingerprint(snap: Directory, dir: Directory, f: Fingerprint)
    requires FingerprintOf(snap, f) && Grew(snap, f.maxMtime, dir) && FingerprintOf(dir, f)
    ensures SameRules(snap, dir)
  {
    hide IsRuleFile;
    forall name | name in RuleFiles(dir) ensures name in RuleFiles(snap) && dir[name] == snap[name] {
      assert dir[name].mtime <= f.maxMtime;
    }
    SubsetOfSameSize(RuleFiles(dir), RuleFiles(snap));
  }

  lemma SubsetOfSameSize<T>(a: set<T>, b: set<T>)
    requires a <= b && |a| == |b|
    ensures a == b
  {
    assert |b - a| == |b| - |a|;
  }

  // ---- Only rule files are read ----

  function RuleNames(listing: seq<string>): seq<string> {
    if listing == [] then []
    else (if IsRuleFile(listing[0]) then [listing[0]] else []) + RuleNames(listing[1..])
  }

  lemma {:induction false} RuleNamesAre(listing: seq<string>)
    ensures forall name :: name in RuleNames(listing) <==> name in listing && IsRuleFile(name)
  {
    hide IsRuleFile;
    if listing != [] {
      RuleNamesAre(listing[1..]);
      assert listing == [listing[0]] + listing[1..];
    }
  }

  predicate Distinct(listing: seq<string>) {
    forall i, j | 0 <= i < j < |listing| :: listing[i] != listing[j]
  }

  lemma DistinctCons(name: string, rest: seq<string>)
    requires Distinct(rest) && name !in rest
    ensures Distinct([name] + rest)
  {
  }

  lemma {:induction false} RuleNamesDistinct(listing: seq<string>)
    requires Distinct(listing)
    ensures Distinct(RuleNames(listing))
  {
    hide IsRuleFile;
    if listing != [] {
      RuleNamesDistinct(listing[1..]);
      RuleNamesAre(listing[1..]);
      if IsRuleFile(listing[0]) {
        DistinctCons(listing[0], RuleNames(listing[1..]));
      } else {
        assert [] + RuleNames(listing[1..]) == RuleNames(listing[1..]);
      }
    }
  }

  lemma {:induction false} ReadsRuleNames(a: Directory, b: Directory, listing: seq<string>)
    requires SameRules(a, b) && ListedIn(a, listing)
    ensures ListedIn(b, RuleNames(listing)) && ReadRules(b, RuleNames(listing)) == ReadRules(a, listing)
  {
    hide IsRuleFile;
    if listing != [] {
      ReadsRuleNames(a, b, listing[1..]);
      var rest := RuleNames(listing[1..]);
      if IsRuleFile(listing[0]) {
        assert ([listing[0]] + rest)[1..] == rest;
        assert listing[0] in RuleFiles(a);
      } else {
        assert [] + rest == rest;
      }
    }
  }

  lemma {:induction false} ReadConcatOther(dir: Directory, listing: seq<string>, others: seq<string>)
    requires ListedIn(dir, listing) && ListedIn(dir, others) && forall i | 0 <= i < |others| :: !IsRuleFile(others[i])
    ensures ListedIn(dir, listing + others) && ReadRules(dir, listing + others) == ReadRules(dir, listing)
    decreases |listing| + |others|
  {
    hide IsRuleFile;
    if listing == [] {
      assert listing + others == others;
      if others != [] {
        ReadConcatOther(dir, [], others[1..]);
        assert [] + others[1..] == others[1..];
      }
    } else {
      ReadConcatOther(dir, listing[1..], others);
      assert (listing + others)[1..] == listing[1..] + others;
    }
  }

  /** Some enumeration of a set of names. */
  lemma {:induction false} Enumerate(names: set<string>) returns (listing: seq<string>)
    ensures Distinct(listing) && forall name :: name in listing <==> name in names
  {
    hide Distinct;
    if names == {} {
      listing := [];
      assert Distinct([]) by { DistinctNothing(); }
    } else {
      var name :| name in names;
      var rest := Enumerate(names - {name});
      listing := [name] + rest;
      DistinctCons(name, rest);
    }
  }

  lemma DistinctNothing()
    ensures Distinct([])
  {
  }

  lemma ListingOfParts(dir: Directory, rules: seq<string>, others: seq<string>)
    requires Distinct(rules) && Distinct(others)
    requires forall name :: name in rules <==> name in RuleFiles(dir)
    requires forall name :: name in others <==> name in dir && !IsRuleFile(name)
    ensures IsListing(dir, rules + others)
  {
    hide IsRuleFile;
    var all := rules + others;
    forall i | 0 <= i < |all| ensures all[i] in dir {
      assert all[i] in rules || all[i] in others;
    }
    forall name | name in dir ensures name in all {
      assert name in rules || name in others;
    }
    forall i, j | 0 <= i < j < |all| ensures all[i] != all[j] {
      if i < |rules| <= j {
        assert all[i] in rules && all[j] in others;
      }
    }
  }

  lemma SameRulesLoadAlike(g: LeafGrammar, a: Directory, b: Directory, r: Result<CacheEntry, LoadError>)
    requires SameRules(a, b) && FreshLoad(g, a, r)
    ensures FreshLoad(g, b, r)
  {
    hide IsRuleFile, EntryOf, SortRules;
    var listing :| IsListing(a, listing) && r == LoadEntry(g, a, listing);
    var rules := RuleNames(listing);
    ReadsRuleNames(a, b, listing);
    RuleNamesAre(listing);
    RuleNamesDistinct(listing);
    var others := Enumerate(set name | name in b && !IsRuleFile(name));
    ListingOfParts(b, rules, others);
    ReadConcatOther(b, rules, others);
    assert r == LoadEntry(g, b, rules + others);
  }

  // ---- The cached entry is a load of some earlier state that only grew since ----

  ghost predicate CachedFrom(g: LeafGrammar, state: CacheState, dir: Directory, snap: Directory) {
    && FingerprintOf(snap, state.fingerprint)
    && FreshLoad(g, snap, Ok(state.entry))
    && Grew(snap, state.fingerprint.maxMtime, dir)
  }

  ghost predicate CacheIsHonest(g: LeafGrammar, s: Store) {
    s.cache.Some? ==> exists snap :: CachedFrom(g, s.cache.value, s.dir, snap)
  }

  lemma HonestAfterWrite(g: LeafGrammar, s: Store, name: string, content: Content, mtime: nat)
    requires CacheIsHonest(g, s) && Noticed(s, Write(name, content, mtime))
    ensures CacheIsHonest(g, s.(dir := s.dir[name := File(content, mtime)]))
  {
    hide IsRuleFile, FingerprintOf, FreshLoad;
    var dir := s.dir[name := File(content, mtime)];
    if s.cache.Some? {
      var snap :| CachedFrom(g, s.cache.value, s.dir, snap);
      forall n | n in RuleFiles(dir)
        ensures (n in RuleFiles(snap) && dir[n] == snap[n]) || dir[n].mtime > s.cache.value.fingerprint.maxMtime
      {
        if n != name {
          assert n in RuleFiles(s.dir);
        }
      }
      assert CachedFrom(g, s.cache.value, dir, snap);
    }
  }

  lemma HonestAfterDelete(g: LeafGrammar, s: Store, name: string)
    requires CacheIsHonest(g, s)
    ensures CacheIsHonest(g, s.(dir := s.dir - {name}))
  {
    hide IsRuleFile, FingerprintOf, FreshLoad;
    var dir := s.dir - {name};
    if s.cache.Some? {
      var snap :| CachedFrom(g, s.cache.value, s.dir, snap);
      forall n | n in RuleFiles(dir)
        ensures (n in RuleFiles(snap) && dir[n] == snap[n]) || dir[n].mtime > s.cache.value.fingerprint.maxMtime
      {
        assert n in RuleFiles(s.dir);
      }
      assert CachedFrom(g, s.cache.value, dir, snap);
    }
  }

  lemma HonestAfterGet(g: LeafGrammar, s: Store, s': Store, r: Result<CacheEntry, LoadError>)
    requires CacheIsHonest(g, s) && Gets(g, s, s', r)
    ensures CacheIsHonest(g, s') && FreshLoad(g, s.dir, r)
  {
    hide IsRuleFile, FingerprintOf, FreshLoad;
    if CacheIsValid(s) {
      var snap :| CachedFrom(g, s.cache.value, s.dir, snap);
      SameFingerprint(snap, s.dir, s.cache.value.fingerprint);
      hide SameRules;
      SameRulesLoadAlike(g, snap, s.dir, r);
    } else if r.Ok? {
      assert CachedFrom(g, s'.cache.value, s'.dir, s.dir);
    }
  }

  lemma StepKeepsHonest(g: LeafGrammar, op: Op, s: Store, s': Store)
    requires CacheIsHonest(g, s) && StepTo(g, op, s, s') && Noticed(s, op)
    ensures CacheIsHonest(g, s')
  {
    hide Gets, CachedFrom;
    match op
    case Write(name, content, mtime) => HonestAfterWrite(g, s, name, content, mtime);
    case Delete(name) => HonestAfterDelete(g, s, name);
    case Get =>
      var r :| Gets(g, s, s', r);
      HonestAfterGet(g, s, s', r);
    case Invalidate =>
  }

  lemma InvalidatedIsHonest(g: LeafGrammar, s: Store, s': Store)
    requires StepTo(g, Invalidate, s, s')
    ensures CacheIsHonest(g, s')
  {
    hide Gets;
  }

  lemma {:induction false} RunIsHonest(g: LeafGrammar, ops: seq<Op>, states: seq<Store>, i: nat)
    requires Run(g, ops, states) && |states| == |ops| + 1 && Watchful(ops, states) && i <= |ops|
    ensures CacheIsHonest(g, states[i]) || (i < |ops| && ops[i] == Invalidate)
    decreases i
  {
    hide *;
    RunStart(g, ops, states);
    if i > 0 {
      RunStep(g, ops, states, i - 1);
      RunIsHonest(g, ops, states, i - 1);
      WatchfulStep(ops, states, i - 1);
      if ops[i - 1] == Invalidate {
        InvalidatedIsHonest(g, states[i - 1], states[i]);
      } else if Noticed(states[i - 1], ops[i - 1]) {
        StepKeepsHonest(g, ops[i - 1], states[i - 1], states[i]);
      }
    }
  }

  lemma WatchfulStep(ops: seq<Op>, states: seq<Store>, i: nat)
    requires |states| == |ops| + 1 && Watchful(ops, states) && i < |ops|
    ensures Noticed(states[i], ops[i]) || (i + 1 < |ops| && ops[i + 1] == Invalidate)
  {
    hide Noticed;
  }

  lemma RunStart(g: LeafGrammar, ops: seq<Op>, states: seq<Store>)
    requires Run(g, ops, states)
    ensures |states| == |ops| + 1 && states[0].cache == None && CacheIsHonest(g, states[0])
  {
    hide StepTo;
  }

  lemma RunStep(g: LeafGrammar, ops: seq<Op>, states: seq<Store>, i: nat)
    requires Run(g, ops, states) && i < |ops|
    ensures StepTo(g, ops[i], states[i], states[i + 1])
  {
    hide StepTo;
  }

  /** In every history of writes, deletes, reads and invalidations in which each write of a rule file has a
      time later than the cache has seen, or is followed by an invalidation, reading through the cache gives
      what a fresh load of the directory gives. */
  lemma ReadsAreFresh(g: LeafGrammar, ops: seq<Op>, states: seq<Store>, i: nat, r: Result<CacheEntry, LoadError>)
    requires Run(g, ops, states) && |states| == |ops| + 1 && Watchful(ops, states)
    requires i < |ops| && ops[i] == Get && Gets(g, states[i], states[i + 1], r)
    ensures FreshLoad(g, states[i].dir, r)
  {
    RunIsHonest(g, ops, states, i);
    hide *;
    HonestAfterGet(g, states[i], states[i + 1], r);
  }

  // ---- Histories in which modification times strictly increase ----

  /** The latest modification time, before step `n`, of a store whose files were at most `start` old. */
  function Clock(ops: seq<Op>, start: nat, n: nat): nat
    requires n <= |ops|
  {
    if n == 0 then start else if ops[n - 1].Write? then ops[n - 1].mtime else Clock(ops, start, n - 1)
  }

  ghost predicate Increasing(ops: seq<Op>, states: seq<Store>, start: nat)
    requires |states| == |ops| + 1
  {
    && NotAfter(states[0].dir, start)
    && forall i | 0 <= i < |ops| && ops[i].Write? :: ops[i].mtime > Clock(ops, start, i)
  }

  ghost predicate NotAfter(dir: Directory, clock: nat) {
    forall name | name in dir :: dir[name].mtime <= clock
  }

  ghost predicate SeenBy(s: Store, clock: nat) {
    NotAfter(s.dir, clock) && (s.cache.Some? ==> s.cache.value.fingerprint.maxMtime <= clock)
  }

  lemma StepSeenBy(g: LeafGrammar, op: Op, s: Store, s': Store, clock: nat)
    requires StepTo(g, op, s, s') && SeenBy(s, clock) && (op.Write? ==> op.mtime > clock)
    ensures SeenBy(s', if op.Write? then op.mtime else clock)
  {
    hide FreshLoad, IsRuleFile;
  }

  lemma {:induction false} RunSeenBy(g: LeafGrammar, ops: seq<Op>, states: seq<Store>, start: nat, n: nat)
    requires Run(g, ops, states) && |states| == |ops| + 1 && Increasing(ops, states, start) && n <= |ops|
    ensures SeenBy(states[n], Clock(ops, start, n))
    decreases n
  {
    hide StepTo;
    if n > 0 {
      RunSeenBy(g, ops, states, start, n - 1);
      StepSeenBy(g, ops[n - 1], states[n - 1], states[n], Clock(ops, start, n - 1));
    }
  }

  /** Strictly increasing modification times are noticed, one and all. */
  lemma IncreasingIsWatchful(g: LeafGrammar, ops: seq<Op>, states: seq<Store>, start: nat)
    requires Run(g, ops, states) && |states| == |ops| + 1 && Increasing(ops, states, start)
    ensures Watchful(ops, states)
  {
    hide Run, IsRuleFile;
    forall i | 0 <= i < |ops| ensures Noticed(states[i], ops[i]) {
      RunSeenBy(g, ops, states, start, i);
    }
  }

  // ---- Exactly which changes go unseen ----

  /** A write of a rule file goes unseen if and only if the file was there, and its new time is the latest in
      the directory, or is earlier while another rule file holds the latest. */
  lemma UnseenWrite(s: Store, name: string, content: Content, mtime: nat)
    requires CacheIsValid(s) && IsRuleFile(name)
    ensures var top := s.cache.value.fingerprint.maxMtime;
            CacheIsValid(s.(dir := s.dir[name := File(content, mtime)])) <==>
            && name in s.dir
            && (mtime == top
                || (mtime < top && exists other | other in RuleFiles(s.dir) && other != name ::
                  s.dir[other].mtime == top))
  {
    hide IsRuleFile;
    var top, dir := s.cache.value.fingerprint.maxMtime, s.dir[name := File(content, mtime)];
    if name in s.dir {
      assert RuleFiles(dir) == RuleFiles(s.dir);
    } else {
      assert RuleFiles(dir) == RuleFiles(s.dir) + {name};
    }
    assert name in RuleFiles(dir) && dir[name].mtime == mtime;
    assert forall other | other in RuleFiles(s.dir) && other != name ::
           other in RuleFiles(dir) && dir[other] == s.dir[other];
    assert forall other | other in RuleFiles(dir) && other != name ::
           other in RuleFiles(s.dir) && dir[other] == s.dir[other];
  }

  /** A deletion goes unseen if and only if there was no such rule file. */
  lemma UnseenDelete(s: Store, name: string)
    requires CacheIsValid(s)
    ensures CacheIsValid(s.(dir := s.dir - {name})) <==> name !in RuleFiles(s.dir)
  {
    hide IsRuleFile;
    var dir := s.dir - {name};
    assert RuleFiles(dir) == RuleFiles(s.dir) - {name};
    assert forall other | other in RuleFiles(dir) :: dir[other] == s.dir[other];
  }

  // ---- When the order of enumeration does not matter ----

  ghost predicate NoTiesIn(dir: Directory) {
    forall a, b | a in RuleFiles(dir) && b in RuleFiles(dir) :: Agree(dir[a].content, dir[b].content)
  }

  predicate Agree(a: Content, b: Content) {
    a.Parsed? && b.Parsed? && KeyOf(a.rule) == KeyOf(b.rule) ==> a == b
  }

  function NamesIn(listing: seq<string>): set<string> {
    set name | name in listing
  }

  function Holders(dir: Directory, names: set<string>, rule: RequestRule): set<string> {
    set name | name in dir && name in names && IsRuleFile(name) && dir[name].content == Parsed(rule)
  }

  lemma HoldersMore(dir: Directory, first: string, rest: seq<string>, rule: RequestRule)
    requires first in dir && first !in rest
    ensures |Holders(dir, NamesIn([first] + rest), rule)| ==
            |Holders(dir, NamesIn(rest), rule)|
            + if IsRuleFile(first) && dir[first].content == Parsed(rule) then 1 else 0
  {
    hide IsRuleFile;
    var all, some := Holders(dir, NamesIn([first] + rest), rule), Holders(dir, NamesIn(rest), rule);
    if IsRuleFile(first) && dir[first].content == Parsed(rule) {
      assert all == some + {first};
    } else {
      assert all == some;
    }
  }

  lemma CountCons(first: RequestRule, more: seq<RequestRule>, rule: RequestRule)
    ensures multiset([first] + more)[rule] == multiset(more)[rule] + if first == rule then 1 else 0
  {
  }

  lemma {:induction false} ReadCounts(dir: Directory, listing: seq<string>, rule: RequestRule)
    requires ListedIn(dir, listing) && Distinct(listing) && ReadRules(dir, listing).Ok?
    ensures multiset(ReadRules(dir, listing).value)[rule] == |Holders(dir, NamesIn(listing), rule)|
  {
    if listing == [] {
      assert Holders(dir, NamesIn(listing), rule) == {};
    } else {
      hide IsRuleFile, Holders, NamesIn;
      var first, rest := listing[0], listing[1..];
      assert listing == [first] + rest;
      ReadCounts(dir, rest, rule);
      HoldersMore(dir, first, rest, rule);
      if IsRuleFile(first) {
        CountCons(dir[first].content.rule, ReadRules(dir, rest).value, rule);
      }
    }
  }

  lemma ReadsSameRules(dir: Directory, a: seq<string>, b: seq<string>)
    requires IsListing(dir, a) && IsListing(dir, b) && ReadRules(dir, a).Ok? && ReadRules(dir, b).Ok?
    ensures multiset(ReadRules(dir, a).value) == multiset(ReadRules(dir, b).value)
  {
    hide IsRuleFile, ReadRules, Holders;
    assert NamesIn(a) == dir.Keys && NamesIn(b) == dir.Keys;
    forall rule ensures multiset(ReadRules(dir, a).value)[rule] == multiset(ReadRules(dir, b).value)[rule] {
      ReadCounts(dir, a, rule);
      ReadCounts(dir, b, rule);
    }
  }

  /** What a load gives: every rule as often as rule files hold it, sorted; or some rule file that is unreadable. */
  lemma LoadIsDirectory(dir: Directory, listing: seq<string>)
    requires IsListing(dir, listing)
    ensures match LoadRules(dir, listing)
            case Ok(rules) =>
              Sorted(rules) && AllParsed(dir)
              && forall rule :: multiset(rules)[rule] == |Holders(dir, dir.Keys, rule)|
            case Err(e) =>
              e.UnreadableRule? && e.name in RuleFiles(dir) && dir[e.name].content == Malformed(e.message)
  {
    ReadIsFirstUnreadable(dir, listing);
    hide ReadRules, Sorted, Holders;
    if ReadRules(dir, listing).Ok? {
      var read := ReadRules(dir, listing).value;
      SortIsStable(read);
      ReadFilesParsed(dir, listing);
      NamesOfListing(dir, listing);
      hide SortRules;
      forall rule ensures multiset(SortRules(read))[rule] == |Holders(dir, dir.Keys, rule)| {
        ReadCounts(dir, listing, rule);
      }
    }
  }

  lemma NamesOfListing(dir: Directory, listing: seq<string>)
    requires IsListing(dir, listing)
    ensures NamesIn(listing) == dir.Keys
  {
  }

  lemma {:induction false} ReadIsFirstUnreadable(dir: Directory, listing: seq<string>)
    requires ListedIn(dir, listing)
    ensures match ReadRules(dir, listing)
            case Ok(_) => true
            case Err(e) =>
              e.UnreadableRule? && e.name in RuleFiles(dir) && dir[e.name].content == Malformed(e.message)
  {
    hide IsRuleFile;
    if listing != [] {
      ReadIsFirstUnreadable(dir, listing[1..]);
    }
  }

  ghost predicate HeldIn(dir: Directory, rule: RequestRule) {
    exists name | name in RuleFiles(dir) :: dir[name].content == Parsed(rule)
  }

  lemma {:induction false} RulesReadFrom(dir: Directory, listing: seq<string>)
    requires ListedIn(dir, listing) && ReadRules(dir, listing).Ok?
    ensures forall i | 0 <= i < |ReadRules(dir, listing).value| :: HeldIn(dir, ReadRules(dir, listing).value[i])
  {
    hide IsRuleFile, HeldIn;
    if listing != [] {
      RulesReadFrom(dir, listing[1..]);
      if IsRuleFile(listing[0]) {
        assert HeldIn(dir, dir[listing[0]].content.rule) by { FileHolds(dir, listing[0]); }
      }
    }
  }

  lemma FileHolds(dir: Directory, name: string)
    requires name in dir && IsRuleFile(name) && dir[name].content.Parsed?
    ensures HeldIn(dir, dir[name].content.rule)
  {
    hide IsRuleFile;
    assert name in RuleFiles(dir);
  }

  lemma {:induction false} ReadFilesParsed(dir: Directory, listing: seq<string>)
    requires ListedIn(dir, listing) && ReadRules(dir, listing).Ok?
    ensures forall name | name in listing && IsRuleFile(name) :: dir[name].content.Parsed?
  {
    hide IsRuleFile;
    if listing != [] {
      ReadFilesParsed(dir, listing[1..]);
      assert listing == [listing[0]] + listing[1..];
    }
  }

  lemma {:induction false} ReadSucceeds(dir: Directory, listing: seq<string>)
    requires ListedIn(dir, listing) && forall name | name in listing && IsRuleFile(name) :: dir[name].content.Parsed?
    ensures ReadRules(dir, listing).Ok?
  {
    hide IsRuleFile;
    if listing != [] {
      assert forall name | name in listing[1..] :: name in listing;
      ReadSucceeds(dir, listing[1..]);
    }
  }

  lemma NoTiesInRead(dir: Directory, listing: seq<string>)
    requires ListedIn(dir, listing) && ReadRules(dir, listing).Ok? && NoTiesIn(dir)
    ensures NoTies(ReadRules(dir, listing).value)
  {
    hide IsRuleFile, ReadRules, KeyOf;
    RulesReadFrom(dir, listing);
    var rules := ReadRules(dir, listing).value;
    forall i, j | 0 <= i < |rules| && 0 <= j < |rules| && KeyOf(rules[i]) == KeyOf(rules[j])
      ensures rules[i] == rules[j]
    {
      assert HeldIn(dir, rules[i]) && HeldIn(dir, rules[j]);
      var a :| a in RuleFiles(dir) && dir[a].content == Parsed(rules[i]);
      var b :| b in RuleFiles(dir) && dir[b].content == Parsed(rules[j]);
      assert Agree(dir[a].content, dir[b].content);
    }
  }

  ghost predicate AllParsed(dir: Directory) {
    forall name | name in RuleFiles(dir) :: dir[name].content.Parsed?
  }

  lemma LoadsAlike(dir: Directory, a: seq<string>, b: seq<string>)
    requires IsListing(dir, a) && IsListing(dir, b) && LoadRules(dir, a).Ok? && NoTiesIn(dir)
    ensures LoadRules(dir, b) == LoadRules(dir, a)
  {
    ReadFilesParsed(dir, a);
    ReadSucceeds(dir, b);
    NoTiesInRead(dir, a);
    hide IsRuleFile, ReadRules, NoTies, SortRules;
    ReadsSameRules(dir, a, b);
    SortForgetsOrder(ReadRules(dir, a).value, ReadRules(dir, b).value);
  }

  /** Unless two different rules share priority and id, all orders of enumeration load the same, except
      that among several unreadable files any may be the one reported. */
  lemma LoadForgetsOrder(g: LeafGrammar, dir: Directory, a: Result<CacheEntry, LoadError>,
                         b: Result<CacheEntry, LoadError>)
    requires NoTiesIn(dir) && FreshLoad(g, dir, a) && FreshLoad(g, dir, b)
    requires a.Ok? || a.error.InvalidExpr?
    ensures a == b
  {
    hide LoadRules, NoTiesIn, CompileRules;
    var la :| IsListing(dir, la) && a == LoadEntry(g, dir, la);
    var lb :| IsListing(dir, lb) && b == LoadEntry(g, dir, lb);
    LoadErrorIsUnreadable(dir, la);
    LoadsAlike(dir, la, lb);
  }

  lemma {:induction false} LoadErrorIsUnreadable(dir: Directory, listing: seq<string>)
    requires ListedIn(dir, listing)
    ensures LoadRules(dir, listing).Err? ==> LoadRules(dir, listing).error.UnreadableRule?
    ensures LoadRules(dir, listing).Err? <==> ReadRules(dir, listing).Err?
  {
    hide IsRuleFile, SortRules;
    if listing != [] {
      LoadErrorIsUnreadable(dir, listing[1..]);
    }
  }

  /** When every file is readable, loading ignores the order of enumeration exactly when no two different
      rules share priority and id. */
  lemma OrderFreeIffNoTies(dir: Directory)
    requires AllParsed(dir)
    ensures NoTiesIn(dir) <==>
            forall a, b | IsListing(dir, a) && IsListing(dir, b) :: LoadRules(dir, a) == LoadRules(dir, b)
  {
    if NoTiesIn(dir) {
      hide NoTiesIn, LoadRules, IsRuleFile;
      forall a, b | IsListing(dir, a) && IsListing(dir, b) ensures LoadRules(dir, a) == LoadRules(dir, b) {
        ParsedLoads(dir, a);
        LoadsAlike(dir, a, b);
      }
    } else {
      hide IsRuleFile, LoadRules, IsListing;
      var x, y :| x in RuleFiles(dir) && y in RuleFiles(dir) && !Agree(dir[x].content, dir[y].content);
      var a, b := TiedListings(dir, x, y);
    }
  }

  lemma ParsedLoads(dir: Directory, listing: seq<string>)
    requires AllParsed(dir) && ListedIn(dir, listing)
    ensures LoadRules(dir, listing).Ok?
  {
    hide ReadRules, SortRules, AllParsed;
    ReadParsed(dir, listing);
  }

  /** Two orders of enumeration that load differently, because two different rules tie. */
  lemma TiedListings(dir: Directory, x: string, y: string) returns (a: seq<string>, b: seq<string>)
    requires AllParsed(dir) && x in RuleFiles(dir) && y in RuleFiles(dir) && !Agree(dir[x].content, dir[y].content)
    ensures IsListing(dir, a) && IsListing(dir, b) && LoadRules(dir, a) != LoadRules(dir, b)
  {
    hide IsRuleFile, SortRules;
    var rest := Enumerate(dir.Keys - {x, y});
    a, b := [x, y] + rest, [y, x] + rest;
    PairFirst(dir, x, y, rest);
    PairFirst(dir, y, x, rest);
    var more := ReadRules(dir, rest).value;
    hide ReadRules, KeyOf;
    TiesKeepReadOrder(dir[x].content.rule, dir[y].content.rule, more);
  }

  lemma PairFirst(dir: Directory, x: string, y: string, rest: seq<string>)
    requires AllParsed(dir) && x in RuleFiles(dir) && y in RuleFiles(dir) && x != y
    requires Distinct(rest) && forall name :: name in rest <==> name in dir.Keys - {x, y}
    ensures IsListing(dir, [x, y] + rest) && ListedIn(dir, rest) && ReadRules(dir, rest).Ok?
    ensures ReadRules(dir, [x, y] + rest) ==
            Ok([dir[x].content.rule, dir[y].content.rule] + ReadRules(dir, rest).value)
  {
    hide IsRuleFile, ReadRules;
    PairListing(dir, x, y, rest);
    ReadParsed(dir, rest);
    ReadPair(dir, x, y, rest);
  }

  lemma PairListing(dir: Directory, x: string, y: string, rest: seq<string>)
    requires x in dir && y in dir && x != y
    requires Distinct(rest) && forall name :: name in rest <==> name in dir.Keys - {x, y}
    ensures IsListing(dir, [x, y] + rest) && ListedIn(dir, rest)
  {
    assert forall i | 0 <= i < |rest| :: rest[i] in rest;
    DistinctCons(y, rest);
    DistinctCons(x, [y] + rest);
    var all := [x] + ([y] + rest);
    assert all == [x, y] + rest;
    assert forall name :: name in all <==> name == x || name == y || name in rest;
  }

  lemma ReadParsed(dir: Directory, listing: seq<string>)
    requires AllParsed(dir) && ListedIn(dir, listing)
    ensures ReadRules(dir, listing).Ok?
  {
    hide IsRuleFile, ReadRules;
    forall name | name in listing && IsRuleFile(name) ensures dir[name].content.Parsed? {
      assert name in RuleFiles(dir);
    }
    ReadSucceeds(dir, listing);
  }

  lemma ReadOne(dir: Directory, x: string, rest: seq<string>)
    requires AllParsed(dir) && x in RuleFiles(dir) && ListedIn(dir, rest) && ReadRules(dir, rest).Ok?
    ensures ListedIn(dir, [x] + rest)
    ensures ReadRules(dir, [x] + rest) == Ok([dir[x].content.rule] + ReadRules(dir, rest).value)
  {
    assert ([x] + rest)[1..] == rest;
  }

  lemma ReadPair(dir: Directory, x: string, y: string, rest: seq<string>)
    requires AllParsed(dir) && x in RuleFiles(dir) && y in RuleFiles(dir) && ListedIn(dir, rest)
             && ReadRules(dir, rest).Ok?
    ensures ListedIn(dir, [x, y] + rest)
    ensures ReadRules(dir, [x, y] + rest) ==
            Ok([dir[x].content.rule, dir[y].content.rule] + ReadRules(dir, rest).value)
  {
    hide IsRuleFile, ReadRules;
    ReadOne(dir, y, rest);
    ReadOne(dir, x, [y] + rest);
    assert [x] + ([y] + rest) == [x, y] + rest;
    var p, q, more := dir[x].content.rule, dir[y].content.rule, ReadRules(dir, rest).value;
    assert [p] + ([q] + more) == [p, q] + more;
  }

  /** Rules with ids of their own never tie. */
  lemma DistinctIdsNeverTie(dir: Directory)
    requires forall a, b | a in RuleFiles(dir) && b in RuleFiles(dir) && a != b ::
             DistinctIds(dir[a].content, dir[b].content)
    ensures NoTiesIn(dir)
  {
    hide IsRuleFile;
    forall a, b | a in RuleFiles(dir) && b in RuleFiles(dir) ensures Agree(dir[a].content, dir[b].content) {
      if a != b {
        assert DistinctIds(dir[a].content, dir[b].content);
      }
    }
  }

  predicate DistinctIds(a: Content, b: Content) {
    a.Parsed? && b.Parsed? ==> a.rule.id.Some? && b.rule.id.Some? && a.rule.id != b.rule.id
  }
}
