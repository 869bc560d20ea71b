/** The rules cache of the data store, validated by a fingerprint of the rules directory. A fingerprint
    and the load beside it see the directory in one state. */
module RulesCache {
  import opened Wrappers
  import opened DslAst
  import opened Compile
  import opened RequestRules

  datatype Content = Parsed(rule: RequestRule) | Malformed(message: string)

  /** `mtime` counts from the epoch. */
  datatype File = File(content: Content, mtime: nat)

  type Directory = map<string, File>

  datatype Fingerprint = Fingerprint(fileCount: nat, maxMtime: nat)

  datatype CacheEntry = CacheEntry(rules: seq<RequestRule>, compiled: seq<CompiledRule>)

  datatype CacheState = CacheState(entry: CacheEntry, fingerprint: Fingerprint)

  datatype LoadError = UnreadableRule(name: string, message: string) | InvalidExpr(invalid: InvalidRule)

  // ---- What the directory says ----

  predicate IsRuleFile(name: string) {
    |name| >= 5 && name[|name| - 5..] == ".json" && name != "templates.json"
  }

  function RuleFiles(dir: Directory): set<string> {
    set name | name in dir && IsRuleFile(name)
  }

  ghost predicate FingerprintOf(dir: Directory, f: Fingerprint) {
    && f.fileCount == |RuleFiles(dir)|
    && (forall name | name in RuleFiles(dir) :: dir[name].mtime <= f.maxMtime)
    && (f.maxMtime == 0 || exists name | name in RuleFiles(dir) :: dir[name].mtime == f.maxMtime)
  }

  lemma FingerprintIsUnique(dir: Directory, a: Fingerprint, b: Fingerprint)
    requires FingerprintOf(dir, a) && FingerprintOf(dir, b)
    ensures a == b
  {
    hide RuleFiles;
  }

  predicate ListedIn(dir: Directory, listing: seq<string>) {
    forall i | 0 <= i < |listing| :: listing[i] in dir
  }

  /** Some order in which the directory may be enumerated. */
  ghost predicate IsListing(dir: Directory, listing: seq<string>) {
    && ListedIn(dir, listing)
    && (forall name | name in dir :: name in listing)
    && forall i, j | 0 <= i < j < |listing| :: listing[i] != listing[j]
  }

  function ReadRules(dir: Directory, listing: seq<string>): Result<seq<RequestRule>, LoadError>
    requires ListedIn(dir, listing)
  {
    if listing == [] then Ok([])
    else if !IsRuleFile(listing[0]) then ReadRules(dir, listing[1..])
    else
      match dir[listing[0]].content
      case Malformed(message) => Err(UnreadableRule(listing[0], message))
      case Parsed(rule) => RulesAfter([rule], ReadRules(dir, listing[1..]))
  }

  function RulesAfter(done: seq<RequestRule>, rest: Result<seq<RequestRule>, LoadError>)
    : Result<seq<RequestRule>, LoadError>
  {
    match rest case Ok(more) => Ok(done + more) case Err(e) => Err(e)
  }

  function LoadRules(dir: Directory, listing: seq<string>): Result<seq<RequestRule>, LoadError>
    requires ListedIn(dir, listing)
  {
    match ReadRules(dir, listing) case Ok(rules) => Ok(SortRules(rules)) case Err(e) => Err(e)
  }

  function EntryOf(g: LeafGrammar, rules: Result<seq<RequestRule>, LoadError>): Result<CacheEntry, LoadError> {
    match rules
    case Err(e) => Err(e)
    case Ok(rs) =>
      match CompileRules(g, rs)
      case Err(invalid) => Err(InvalidExpr(invalid))
      case Ok(compiled) => Ok(CacheEntry(rs, compiled))
  }

  function LoadEntry(g: LeafGrammar, dir: Directory, listing: seq<string>): Result<CacheEntry, LoadError>
    requires ListedIn(dir, listing)
  {
    EntryOf(g, LoadRules(dir, listing))
  }

  /** A result that a load of this directory may give, for some order of enumeration. */
  ghost predicate FreshLoad(g: LeafGrammar, dir: Directory, r: Result<CacheEntry, LoadError>) {
    exists listing :: IsListing(dir, listing) && r == LoadEntry(g, dir, listing)
  }

  // ---- Steps of the store ----

  datatype Store = Store(dir: Directory, cache: Option<CacheState>)

  datatype Op =
    | Write(name: string, content: Content, mtime: nat)
    | Delete(name: string)
    | Get
    | Invalidate

  ghost predicate CacheIsValid(s: Store) {
    s.cache.Some? && FingerprintOf(s.dir, s.cache.value.fingerprint)
  }

  /** Reading the rules: a valid cache answers; otherwise a load does, and is cached if it succeeds. */
  ghost predicate Gets(g: LeafGrammar, s: Store, s': Store, r: Result<CacheEntry, LoadError>) {
    && s'.dir == s.dir
    && if CacheIsValid(s) then s' == s && r == Ok(s.cache.value.entry)
       else
         && FreshLoad(g, s.dir, r)
         && if r.Err? then s'.cache == s.cache
            else s'.cache.Some? && s'.cache.value.entry == r.value && FingerprintOf(s.dir, s'.cache.value.fingerprint)
  }

  ghost predicate StepTo(g: LeafGrammar, op: Op, s: Store, s': Store) {
    match op
    case Write(name, content, mtime) => s' == s.(dir := s.dir[name := File(content, mtime)])
    case Delete(name) => s' == s.(dir := s.dir - {name})
    case Get => exists r :: Gets(g, s, s', r)
    case Invalidate => s' == s.(cache := None)
  }

  // ---- The store ----

  class DataStore {
    var dir: Directory
    var cache: Option<CacheState>

    constructor (dir: Directory)
      ensures this.dir == dir && cache == None
    {
      this.dir, cache := dir, None;
    }

    ghost function State(): Store
      reads this
    {
      Store(dir, cache)
    }

    method InvalidateRulesCache()
      modifies this`cache
      ensures State() == old(State()).(cache := None)
    {
      cache := None;
    }

    method RulesDirFingerprint() returns (f: Fingerprint)
      ensures FingerprintOf(dir, f)
    {
      hide RuleFiles, IsRuleFile, Measures;
      var fileCount: nat, maxMtime: nat := 0, 0;
      var entries := dir.Keys;
      ghost var seen: set<string> := {};
      MeasureNone(dir);
      while entries != {}
        invariant entries !! seen && entries + seen == dir.Keys
        invariant Measures(dir, seen, fileCount, maxMtime)
        decreases |entries|
      {
        var name :| name in entries;
        entries := entries - {name};
        MeasureMore(dir, seen, fileCount, maxMtime, name);
        seen := seen + {name};
        if !IsRuleFile(name) {
          continue;
        }
        fileCount := fileCount + 1;
        maxMtime := if dir[name].mtime > maxMtime then dir[name].mtime else maxMtime;
      }
      assert seen == dir.Keys;
      MeasureAll(dir, fileCount, maxMtime);
      return Fingerprint(fileCount, maxMtime);
    }

    method IsRulesCacheStale(fingerprint: Fingerprint) returns (stale: bool)
      ensures stale <==> !FingerprintOf(dir, fingerprint)
    {
      hide FingerprintOf;
      var current := RulesDirFingerprint();
      if FingerprintOf(dir, fingerprint) {
        FingerprintIsUnique(dir, current, fingerprint);
      }
      return current != fingerprint;
    }

    method LoadAllRules() returns (r: Result<seq<RequestRule>, LoadError>, ghost listing: seq<string>)
      ensures IsListing(dir, listing) && ListedIn(dir, listing) && r == LoadRules(dir, listing)
    {
      hide SortRules, IsRuleFile;
      var rules: seq<RequestRule> := [];
      var entries := dir.Keys;
      listing := [];
      while entries != {}
        invariant entries <= dir.Keys && ListsAllBut(dir, listing, entries)
        invariant ReadRules(dir, listing) == Ok(rules)
        decreases |entries|
      {
        hide ListsAllBut;
        var name :| name in entries;
        ListMore(dir, listing, entries, name);
        ReadMore(dir, listing, name);
        entries := entries - {name};
        listing := listing + [name];
        if !IsRuleFile(name) {
          continue;
        }
        if dir[name].content.Malformed? {
          listing := CompleteListing(dir, listing, entries);
          return Err(UnreadableRule(name, dir[name].content.message)), listing;
        }
        rules := rules + [dir[name].content.rule];
      }
      AllListed(dir, listing);
      return Ok(SortRules(rules)), listing;
    }

    method GetRulesCacheEntry(g: LeafGrammar) returns (r: Result<CacheEntry, LoadError>)
      modifies this`cache
      ensures Gets(g, old(State()), State(), r)
    {
      hide FingerprintOf, IsListing, ListedIn, LoadRules, CompileRules;
      if cache.Some? {
        var stale := IsRulesCacheStale(cache.value.fingerprint);
        if !stale {
          return Ok(cache.value.entry);
        }
      }
      var fingerprint := RulesDirFingerprint();
      var rules, listing := LoadAllRules();
      if rules.Err? {
        r := Err(rules.error);
        assert r == LoadEntry(g, dir, listing);
        return;
      }
      var compiled := CompileAll(g, rules.value);
      if compiled.Err? {
        r := Err(InvalidExpr(compiled.error));
        assert r == LoadEntry(g, dir, listing);
        return;
      }
      r := Ok(CacheEntry(rules.value, compiled.value));
      assert r == LoadEntry(g, dir, listing);
      cache := Some(CacheState(r.value, fingerprint));
    }
  }

  /** Count and latest modification time of the rule files among the given names. */
  ghost predicate Measures(dir: Directory, seen: set<string>, fileCount: nat, maxMtime: nat) {
    && fileCount == |RuleFiles(dir) * seen|
    && (forall name | name in RuleFiles(dir) && name in seen :: dir[name].mtime <= maxMtime)
    && (maxMtime == 0 || exists name | name in RuleFiles(dir) && name in seen :: dir[name].mtime == maxMtime)
  }

  lemma MeasureNone(dir: Directory)
    ensures Measures(dir, {}, 0, 0)
  {
    assert RuleFiles(dir) * {} == {};
  }

  lemma MeasureMore(dir: Directory, seen: set<string>, fileCount: nat, maxMtime: nat, name: string)
    requires Measures(dir, seen, fileCount, maxMtime) && name in dir && name !in seen
    ensures IsRuleFile(name) ==>
              Measures(dir, seen + {name}, fileCount + 1,
                       if dir[name].mtime > maxMtime then dir[name].mtime else maxMtime)
    ensures !IsRuleFile(name) ==> Measures(dir, seen + {name}, fileCount, maxMtime)
  {
    hide IsRuleFile;
    var all := RuleFiles(dir);
    if IsRuleFile(name) {
      assert all * (seen + {name}) == all * seen + {name};
      assert name in seen + {name};
    } else {
      assert all * (seen + {name}) == all * seen;
    }
  }

  lemma MeasureAll(dir: Directory, fileCount: nat, maxMtime: nat)
    requires Measures(dir, dir.Keys, fileCount, maxMtime)
    ensures FingerprintOf(dir, Fingerprint(fileCount, maxMtime))
  {
    hide IsRuleFile;
    assert RuleFiles(dir) * dir.Keys == RuleFiles(dir);
  }

  /** The names listed so far, each once: all those of the directory that are not still to come. */
  ghost predicate ListsAllBut(dir: Directory, listing: seq<string>, entries: set<string>) {
    && ListedIn(dir, listing)
    && (forall name | name in dir :: name in listing <==> name !in entries)
    && forall i, j | 0 <= i < j < |listing| :: listing[i] != listing[j]
  }

  lemma ListMore(dir: Directory, listing: seq<string>, entries: set<string>, name: string)
    requires ListsAllBut(dir, listing, entries) && name in entries && name in dir
    ensures ListsAllBut(dir, listing + [name], entries - {name})
    ensures ListedIn(dir, listing)
  {
  }

  lemma AllListed(dir: Directory, listing: seq<string>)
    requires ListsAllBut(dir, listing, {})
    ensures IsListing(dir, listing)
  {
  }

  /** A listing cut short by an unreadable file, completed; nothing after the file is read. */
  lemma {:induction false} CompleteListing(dir: Directory, listing: seq<string>, entries: set<string>)
    returns (all: seq<string>)
    requires entries <= dir.Keys && ListsAllBut(dir, listing, entries) && ListedIn(dir, listing)
    requires ReadRules(dir, listing).Err?
    ensures IsListing(dir, all) && LoadRules(dir, all) == Err(ReadRules(dir, listing).error)
    decreases entries
  {
    hide ListsAllBut, ReadRules;
    if entries == {} {
      AllListed(dir, listing);
      all := listing;
    } else {
      var name :| name in entries;
      ListMore(dir, listing, entries, name);
      ReadMore(dir, listing, name);
      all := CompleteListing(dir, listing + [name], entries - {name});
    }
  }

  lemma {:induction false} ReadMore(dir: Directory, listing: seq<string>, name: string)
    requires ListedIn(dir, listing) && name in dir
    ensures ListedIn(dir, listing + [name])
    ensures ReadRules(dir, listing + [name]) ==
            match ReadRules(dir, listing)
            case Err(e) => Err(e)
            case Ok(rules) =>
              if !IsRuleFile(name) then Ok(rules)
              else match dir[name].content
                   case Malformed(message) => Err(UnreadableRule(name, message))
                   case Parsed(rule) => Ok(rules + [rule])
  {
    hide IsRuleFile;
    if listing != [] {
      ReadMore(dir, listing[1..], name);
      assert (listing + [name])[1..] == listing[1..] + [name];
      if ReadRules(dir, listing).Ok? && IsRuleFile(listing[0]) && IsRuleFile(name) && dir[name].content.Parsed? {
        var first, rest := [dir[listing[0]].content.rule], ReadRules(dir, listing[1..]).value;
        assert first + (rest + [dir[name].content.rule]) == first + rest + [dir[name].content.rule];
      }
    } else {
      assert listing + [name] == [name] && [name][1..] == [];
      assert ReadRules(dir, [name][1..]) == Ok([]);
      if IsRuleFile(name) && dir[name].content.Parsed? {
        var rule := dir[name].content.rule;
        assert ReadRules(dir, [name]) == RulesAfter([rule], Ok([]));
        assert [rule] + [] == [] + [rule];
      }
    }
  }

  /** The names that count as rule files. */
  lemma RuleFilesAre(name: string)
    ensures IsRuleFile(name) <==> name != "templates.json" && exists stem: string :: name == stem + ".json"
    ensures IsRuleFile("1.json") && !IsRuleFile("templates.json") && !IsRuleFile("a.txt")
  {
    if IsRuleFile(name) {
      assert name == name[..|name| - 5] + ".json";
    }
    assert "1.json"[1..] == ".json" && "1.json"[0] != "templates.json"[0];
    assert |"a.txt"| == 5 && "a.txt"[0..] == "a.txt" && "a.txt"[0] != ".json"[0];
  }
}
