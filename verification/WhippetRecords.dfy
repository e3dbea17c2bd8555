/** The compiler's promise about own, send and receive rules: the last loaded matching rule of
    the user's own context decides, else the last loaded matching default rule. */
module WhippetRecords {
  import opened Wrappers
  import opened Decimal
  import opened PolicyModel
  import opened DbusModel
  import opened WhippetNames
  import opened WhippetLoad
  import opened WhippetPasses
  import opened WhippetLowering

  type Matcher = Record -> bool

  // -------------------------------------------------------------- the meaning of the sources

  /** The record of the last rule of a kind that a broker's match accepts. */
  function LastMatching(kind: Kind, rules: seq<Rule>, matches: Matcher): Option<Record> {
    if rules == [] then None
    else
      var record := ToRecord(kind, rules[|rules| - 1]);
      if record.Ok? && matches(Unranked(record.value)) then Some(Unranked(record.value))
      else LastMatching(kind, rules[..|rules| - 1], matches)
  }

  /** The user name whose context a uid owns: the last of its names, by first appearance. */
  ghost function Owner(passwd: Passwd, names: seq<string>, uid: u32): (r: Option<string>)
    ensures r.Some? ==> r.value in names && Denotes(passwd, r.value, uid)
    ensures r.None? ==> forall n :: n in names ==> !Denotes(passwd, n, uid)
  {
    if names == [] then None
    else if Denotes(passwd, names[|names| - 1], uid) then Some(names[|names| - 1])
    else
      assert names == names[..|names| - 1] + [names[|names| - 1]];
      Owner(passwd, names[..|names| - 1], uid)
  }

  /** The rules of the context a uid owns, in load order. */
  ghost function OwnRules(passwd: Passwd, files: seq<Config>, uid: u32): seq<Rule> {
    match Owner(passwd, NameOrder(files), uid)
    case Some(name) => RawUser(files, name)
    case None => []
  }

  /** What decides: the own context first, the default context otherwise.  The wildcard id has
      the default context only. */
  ghost function Expected(passwd: Passwd, files: seq<Config>, uid: u32, kind: Kind, matches: Matcher): Option<Record> {
    var own := if uid == DEFAULT_USER_ID then None else LastMatching(kind, OwnRules(passwd, files, uid), matches);
    if own.Some? then own else LastMatching(kind, RawDefaults(files), matches)
  }

  lemma RecordBare(kind: Kind, r: Rule)
    ensures var bare, record := ToRecord(kind, SetPriority(r, 0)), ToRecord(kind, r);
            bare.Ok? == record.Ok? && (record.Ok? ==> Unranked(bare.value) == Unranked(record.value))
  {
  }

  lemma {:induction false} LastMatchingBare(kind: Kind, rules: seq<Rule>, matches: Matcher)
    ensures LastMatching(kind, Bare(rules), matches) == LastMatching(kind, rules, matches)
  {
    if rules == [] {
      assert Bare(rules) == [];
    } else {
      hide Bare, ToRecord, SetPriority;
      LastMatchingBare(kind, rules[..|rules| - 1], matches);
      BareLast(rules);
      RecordBare(kind, rules[|rules| - 1]);
    }
  }

  // ----------------------------------------------------- no pass changes a context's records

  lemma {:induction false} RecordsConcat(kind: Kind, a: seq<Rule>, b: seq<Rule>)
    ensures RecordsOf(kind, a + b) == RecordsOf(kind, a) + RecordsOf(kind, b)
  {
    if b == [] {
      assert a + b == a;
    } else {
      assert (a + b)[..|a + b| - 1] == a + b[..|b| - 1];
      RecordsConcat(kind, a, b[..|b| - 1]);
    }
  }

  lemma {:induction false} RecordsFilter(kind: Kind, rules: seq<Rule>, p: Rule -> bool)
    requires forall r :: !IsConnect(r) ==> p(r)
    ensures RecordsOf(kind, Filter(rules, p)) == RecordsOf(kind, rules)
  {
    if rules != [] {
      var front, last := rules[..|rules| - 1], rules[|rules| - 1];
      RecordsFilter(kind, front, p);
      RecordsConcat(kind, Filter(front, p), [last]);
    }
  }

  lemma {:induction false} RecordsOfConnects(kind: Kind, rules: seq<Rule>)
    requires forall r :: r in rules ==> IsConnect(r)
    ensures RecordsOf(kind, rules) == []
  {
    if rules != [] {
      assert rules[|rules| - 1] in rules;
      RecordsOfConnects(kind, rules[..|rules| - 1]);
    }
  }

  lemma RecordResolve(kind: Kind, passwd: Passwd, r: Rule, out: Rule)
    requires ResolveRule(passwd, r) == Ok(out)
    ensures ToRecord(kind, out) == ToRecord(kind, r)
  {
  }

  lemma {:induction false} RecordsResolve(kind: Kind, passwd: Passwd, rules: seq<Rule>, out: seq<Rule>)
    requires ResolveRules(passwd, rules) == Ok(out)
    ensures RecordsOf(kind, out) == RecordsOf(kind, rules)
  {
    if rules != [] {
      var front := ResolveRules(passwd, rules[..|rules| - 1]).value;
      var last := ResolveRule(passwd, rules[|rules| - 1]).value;
      assert out == front + [last] && out[..|out| - 1] == front;
      RecordsResolve(kind, passwd, rules[..|rules| - 1], front);
      RecordResolve(kind, passwd, rules[|rules| - 1], last);
    }
  }

  lemma BackEndRecords(kind: Kind, c: Config, k: string)
    ensures RecordsOf(kind, DefaultRules(Optimized(Prepared(c)))) == RecordsOf(kind, DefaultRules(c))
    ensures RecordsOf(kind, Users(Optimized(Prepared(c))).Get(k)) == RecordsOf(kind, Users(c).Get(k))
  {
    var p := Prepared(c);
    var t := Threshold(DefaultRules(p));
    var moved := Reverse(Filter(DefaultRules(c), MovesTo(k)));
    PrepareMoves(c, k);
    RecordsFilter(kind, DefaultRules(c), Stays);
    RecordsFilter(kind, DefaultRules(p), Survives(t));
    OptimizedGet(t, Users(p), k);
    RecordsFilter(kind, Users(p).Get(k),
                  Survives(if t > Threshold(Users(p).Get(k)) then t else Threshold(Users(p).Get(k))));
    RecordsConcat(kind, Users(c).Get(k), moved);
    ReverseMembers(Filter(DefaultRules(c), MovesTo(k)));
    FilterMembers(DefaultRules(c), MovesTo(k));
    RecordsOfConnects(kind, moved);
  }

  // ------------------------------------------------------------- the context a uid ends up with

  lemma OwnerSnoc(passwd: Passwd, names: seq<string>, name: string, uid: u32)
    ensures Owner(passwd, names + [name], uid) ==
            if Denotes(passwd, name, uid) then Some(name) else Owner(passwd, names, uid)
  {
    hide Denotes;
    var all := names + [name];
    assert all[..|all| - 1] == names;
  }

  lemma {:induction false} ResolvedOwner(passwd: Passwd, u: IndexMap, out: IndexMap, uid: u32)
    requires ResolveUsers(passwd, u) == Ok(out)
    ensures out.Get(Show(uid)) ==
            match Owner(passwd, u.Keys(), uid) { case Some(name) => u.Get(name) case None => [] }
  {
    hide Show, Insert, Resolve, Denotes;
    if u.Entry? {
      var front, owner := ResolveUsers(passwd, u.front).value, Resolve(passwd, u.key).value;
      ResolvedOwner(passwd, u.front, front, uid);
      InsertGet(front, Show(owner), u.context, Show(uid));
      ShowInjective(owner, uid);
      OwnerSnoc(passwd, u.front.Keys(), u.key, uid);
      ResolveIff(passwd, u.key, uid);
      KeysHas(u.front, u.key);
    }
  }

  // ------------------------------------------------------------------ highest means last loaded

  predicate Rising(records: seq<Record>) {
    forall i, j :: 0 <= i < j < |records| ==> records[i].priority < records[j].priority
  }

  lemma {:induction false} RecordsRise(kind: Kind, rules: seq<Rule>)
    requires Increasing(rules)
    ensures Rising(RecordsOf(kind, rules))
    ensures forall q :: q in RecordsOf(kind, rules) ==> exists r :: r in rules && r.priority == q.priority
  {
    if rules != [] {
      var front, last := rules[..|rules| - 1], rules[|rules| - 1];
      assert rules == front + [last];
      RecordsRise(kind, front);
    }
  }

  function UnrankedOption(r: Option<Record>): Option<Record> {
    if r.Some? then Some(Unranked(r.value)) else None
  }

  function LastRecord(records: seq<Record>, matches: Matcher): Option<Record> {
    if records == [] then None
    else if matches(Unranked(records[|records| - 1])) then Some(records[|records| - 1])
    else LastRecord(records[..|records| - 1], matches)
  }

  lemma {:induction false} HighestRecordIsLast(records: seq<Record>, matches: Matcher)
    requires Rising(records)
    ensures Decide(records, matches) == LastRecord(records, matches)
  {
    if records != [] {
      var front := records[..|records| - 1];
      HighestRecordIsLast(front, matches);
      var best := Decide(front, matches);
      if best.Some? {
        var i :| 0 <= i < |front| && front[i] == best.value;
        assert records[i].priority < records[|records| - 1].priority;
      }
    }
  }

  lemma {:induction false} LastRecordIsLastRule(kind: Kind, rules: seq<Rule>, matches: Matcher)
    ensures UnrankedOption(LastRecord(RecordsOf(kind, rules), matches)) == LastMatching(kind, rules, matches)
  {
    if rules != [] {
      var front, record := RecordsOf(kind, rules[..|rules| - 1]), ToRecord(kind, rules[|rules| - 1]);
      LastRecordIsLastRule(kind, rules[..|rules| - 1], matches);
      if record.Ok? {
        assert (front + [record.value])[..|front|] == front;
      }
    }
  }

  lemma DecideRising(kind: Kind, rules: seq<Rule>, matches: Matcher)
    requires Increasing(rules)
    ensures UnrankedOption(Decide(RecordsOf(kind, rules), matches)) == LastMatching(kind, rules, matches)
  {
    RecordsRise(kind, rules);
    HighestRecordIsLast(RecordsOf(kind, rules), matches);
    LastRecordIsLastRule(kind, rules, matches);
  }

  /** The higher block decides whenever it has a match. */
  lemma {:induction false} DecideBlocks(high: seq<Record>, low: seq<Record>, matches: Matcher)
    requires forall a, b :: a in high && b in low ==> a.priority > b.priority
    ensures Decide(high + low, matches) ==
            if Decide(high, matches).Some? then Decide(high, matches) else Decide(low, matches)
  {
    if low == [] {
      assert high + low == high;
    } else {
      assert (high + low)[..|high + low| - 1] == high + low[..|low| - 1];
      assert low[|low| - 1] in low;
      DecideBlocks(high, low[..|low| - 1], matches);
    }
  }

  lemma RankedBlocks(kind: Kind, own: seq<Rule>, defaults: seq<Rule>, low: nat, high: nat)
    requires Ranked(own, USER_BASE, low, high) && Ranked(defaults, DEFAULT_BASE, low, high)
    requires high <= low + 2 * PRIORITY_BASE
    ensures forall a, b :: a in RecordsOf(kind, own) && b in RecordsOf(kind, defaults) ==> a.priority > b.priority
  {
    RecordsRise(kind, own);
    RecordsRise(kind, defaults);
  }

  /** The records a uid's batch holds, in terms of the loaded policy. */
  lemma BatchRecords(passwd: Passwd, loaded: Config, resolved: Config, uid: u32, kind: Kind)
    requires Resolved(passwd, loaded) == Ok(resolved)
    ensures var final := Optimized(Prepared(resolved));
            && Converted(final).Ok? && EffectiveBatch(Converted(final).value, uid).Some?
            && EffectiveBatch(Converted(final).value, uid).value.Records(kind) ==
               (if uid == DEFAULT_USER_ID then [] else RecordsOf(kind, Users(resolved).Get(Show(uid))))
               + RecordsOf(kind, DefaultRules(loaded))
  {
    var final := Optimized(Prepared(resolved));
    PipelineUidKeys(passwd, loaded, resolved);
    ResolvedDefaults(kind, passwd, loaded, resolved);
    BackEndRecords(kind, resolved, Show(uid));
    hide *;
    FoundRecords(kind, final, uid);
  }

  lemma ResolvedDefaults(kind: Kind, passwd: Passwd, loaded: Config, resolved: Config)
    requires Resolved(passwd, loaded) == Ok(resolved)
    ensures RecordsOf(kind, DefaultRules(resolved)) == RecordsOf(kind, DefaultRules(loaded))
  {
    RecordsResolve(kind, passwd, DefaultRules(loaded), ResolveRules(passwd, DefaultRules(loaded)).value);
  }

  /** The records of the batch a uid finds: those of its own context, then the default ones. */
  lemma FoundRecords(kind: Kind, c: Config, uid: u32)
    requires UidKeys(Users(c))
    ensures Converted(c).Ok? && EffectiveBatch(Converted(c).value, uid).Some?
    ensures EffectiveBatch(Converted(c).value, uid).value.Records(kind) ==
            (if uid == DEFAULT_USER_ID then [] else RecordsOf(kind, Users(c).Get(Show(uid))))
            + RecordsOf(kind, DefaultRules(c))
  {
    var k := Show(uid);
    BatchFound(c, uid);
    DefaultBatchRecords(kind, c);
    UserBatchShape(DefaultBatch(c), Users(c).Get(k), kind);
    if !Users(c).Has(k) {
      AbsentGet(Users(c), k);
    }
    NoRecords(kind);
    hide *;
    assert [] + RecordsOf(kind, DefaultRules(c)) == RecordsOf(kind, DefaultRules(c));
  }

  lemma NoRecords(kind: Kind)
    ensures RecordsOf(kind, []) == []
  {
  }

  lemma DefaultBatchRecords(kind: Kind, c: Config)
    ensures DefaultBatch(c).Records(kind) == RecordsOf(kind, DefaultRules(c))
  {
    BatchShape(DefaultRules(c), kind);
  }

  /** The records of the context a uid owns in the loaded policy. */
  ghost function OwnBlock(passwd: Passwd, loaded: Config, names: seq<string>, uid: u32, kind: Kind): seq<Record> {
    if uid == DEFAULT_USER_ID || Owner(passwd, names, uid).None? then []
    else RecordsOf(kind, Users(loaded).Get(Owner(passwd, names, uid).value))
  }

  lemma EffectiveRecords(passwd: Passwd, files: seq<Config>, uid: u32, policy: DbusPolicy, kind: Kind)
    requires Compiled(passwd, files) == Ok(policy)
    ensures EffectiveBatch(policy, uid).Some?
    ensures EffectiveBatch(policy, uid).value.Records(kind) ==
            OwnBlock(passwd, Loaded(files), NameOrder(files), uid, kind)
            + RecordsOf(kind, DefaultRules(Loaded(files)))
  {
    var loaded := Loaded(files);
    var resolved := Resolved(passwd, loaded).value;
    BatchRecords(passwd, loaded, resolved, uid, kind);
    ResolvedOwner(passwd, Users(loaded), Users(resolved), uid);
    LoadingKeepsNameOrder(files);
  }

  /** End to end, for every run of files, uid, kind of rule and way of matching records: the
      highest-priority matching record in the uid's batch is the last loaded matching rule of the
      context the uid owns, or else the last loaded matching default rule. */
  lemma RecordMeaning(passwd: Passwd, files: seq<Config>, uid: u32, policy: DbusPolicy, kind: Kind, matches: Matcher)
    requires Loadable(files)
    requires Compiled(passwd, files) == Ok(policy)
    ensures EffectiveBatch(policy, uid).Some?
    ensures UnrankedOption(Decide(EffectiveBatch(policy, uid).value.Records(kind), matches)) ==
            Expected(passwd, files, uid, kind, matches)
  {
    EffectiveRecords(passwd, files, uid, policy, kind);
    BlocksDecide(passwd, files, Loaded(files), uid, kind, matches);
  }

  lemma BlocksDecide(passwd: Passwd, files: seq<Config>, loaded: Config, uid: u32, kind: Kind, matches: Matcher)
    requires Loadable(files) && loaded == Loaded(files)
    ensures UnrankedOption(Decide(OwnBlock(passwd, loaded, NameOrder(files), uid, kind)
                                  + RecordsOf(kind, DefaultRules(loaded)), matches)) ==
            Expected(passwd, files, uid, kind, matches)
  {
    hide RecordsOf, Decide, Loaded, NameOrder, Owner, RawUser, RawDefaults, Ranked, TotalRules;
    DefaultsDecide(files, kind, matches);
    var owner, low := Owner(passwd, NameOrder(files), uid), RecordsOf(kind, DefaultRules(loaded));
    if uid == DEFAULT_USER_ID || owner.None? {
      assert [] + low == low;
    } else {
      ContextDecides(files, owner.value, kind, matches);
      OwnBlockOutranks(files, loaded, owner.value, kind);
      DecideBlocks(RecordsOf(kind, Users(loaded).Get(owner.value)), low, matches);
    }
  }

  lemma OwnBlockOutranks(files: seq<Config>, loaded: Config, name: string, kind: Kind)
    requires Loadable(files) && loaded == Loaded(files)
    ensures forall a, b :: a in RecordsOf(kind, Users(loaded).Get(name)) && b in RecordsOf(kind, DefaultRules(loaded)) ==>
              a.priority > b.priority
  {
    hide RecordsOf, Loaded, Ranked;
    LoadableFits(files);
    DefaultsRank(files);
    UserRanks(files, name);
    RankedBlocks(kind, Users(loaded).Get(name), DefaultRules(loaded),
                 FIRST_PRIORITY, FIRST_PRIORITY + TotalRules(files));
  }

  lemma DefaultsDecide(files: seq<Config>, kind: Kind, matches: Matcher)
    requires Loadable(files)
    ensures UnrankedOption(Decide(RecordsOf(kind, DefaultRules(Loaded(files))), matches)) ==
            LastMatching(kind, RawDefaults(files), matches)
  {
    LoadableFits(files);
    DefaultsRank(files);
    LoadingKeepsText(files, "");
    DecideRising(kind, DefaultRules(Loaded(files)), matches);
    LastMatchingBare(kind, DefaultRules(Loaded(files)), matches);
    LastMatchingBare(kind, RawDefaults(files), matches);
  }

  lemma ContextDecides(files: seq<Config>, name: string, kind: Kind, matches: Matcher)
    requires Loadable(files)
    ensures UnrankedOption(Decide(RecordsOf(kind, Users(Loaded(files)).Get(name)), matches)) ==
            LastMatching(kind, RawUser(files, name), matches)
  {
    LoadableFits(files);
    UserRanks(files, name);
    LoadingKeepsText(files, name);
    DecideRising(kind, Users(Loaded(files)).Get(name), matches);
    LastMatchingBare(kind, Users(Loaded(files)).Get(name), matches);
    LastMatchingBare(kind, RawUser(files, name), matches);
  }

  // ------------------------------------------------------------------------- names that collide

  /** Different user names denote different uids. */
  ghost predicate NamesApart(passwd: Passwd, files: seq<Config>) {
    forall a, b ::
      a in NameOrder(files) && b in NameOrder(files) && Namesakes(passwd, a, b) ==> a == b
  }

  /** When no two names denote one uid, each named context belongs whole to its uid. */
  lemma NamedContextDecides(passwd: Passwd, files: seq<Config>, name: string, uid: u32)
    requires NamesApart(passwd, files)
    requires name in NameOrder(files) && Denotes(passwd, name, uid)
    ensures OwnRules(passwd, files, uid) == RawUser(files, name)
  {
    hide Denotes;
    var owner := Owner(passwd, NameOrder(files), uid);
    assert owner.Some? && Namesakes(passwd, owner.value, name);
  }

  /** The rules lost when a later context overwrites an earlier one with the same uid. */
  function Overwritten(passwd: Passwd, u: IndexMap): multiset<Rule>
    requires ResolveUsers(passwd, u).Ok?
  {
    if u.Empty? then multiset{}
    else
      Overwritten(passwd, u.front)
      + multiset(ResolveUsers(passwd, u.front).value.Get(Show(Resolve(passwd, u.key).value)))
  }

  lemma Swapped(a: multiset<Rule>, b: multiset<Rule>, c: multiset<Rule>)
    ensures a + b + c == a + c + b
  {
  }

  lemma {:induction false} ReplaceTrades(u: IndexMap, k: string, c: Context)
    requires u.Has(k)
    ensures UserRules(Replace(u, k, c)) + multiset(u.Get(k)) == UserRules(u) + multiset(c.rules)
  {
    var here, had, new_ := multiset(u.context.rules), multiset(u.Get(k)), multiset(c.rules);
    if u.key == k {
      assert UserRules(Replace(u, k, c)) == UserRules(u.front) + new_;
      Swapped(UserRules(u.front), new_, had);
    } else {
      ReplaceTrades(u.front, k, c);
      calc {
        UserRules(Replace(u, k, c)) + had;
        UserRules(Replace(u.front, k, c)) + here + had;
        { Swapped(UserRules(Replace(u.front, k, c)), here, had); }
        UserRules(Replace(u.front, k, c)) + had + here;
        UserRules(u.front) + new_ + here;
        { Swapped(UserRules(u.front), new_, here); }
        UserRules(u) + new_;
      }
    }
  }

  lemma InsertTrades(u: IndexMap, k: string, c: Context)
    ensures UserRules(Insert(u, k, c)) + multiset(u.Get(k)) == UserRules(u) + multiset(c.rules)
  {
    if u.Has(k) {
      ReplaceTrades(u, k, c);
    } else {
      AbsentGet(u, k);
    }
  }

  lemma Balance(out: multiset<Rule>, lost: multiset<Rule>, front: multiset<Rule>, added: multiset<Rule>,
                lostBefore: multiset<Rule>, before: multiset<Rule>)
    requires out + lost == front + added && front + lostBefore == before
    ensures out + (lostBefore + lost) == before + added
  {
    calc {
      out + (lostBefore + lost);
      out + lost + lostBefore;
      front + added + lostBefore;
      front + lostBefore + added;
    }
  }

  lemma {:induction false} ResolveBalance(passwd: Passwd, u: IndexMap, out: IndexMap)
    requires ResolveUsers(passwd, u) == Ok(out)
    ensures UserRules(out) + Overwritten(passwd, u) == UserRules(u)
  {
    if u.Entry? {
      var front, k := ResolveUsers(passwd, u.front).value, Show(Resolve(passwd, u.key).value);
      ResolveBalance(passwd, u.front, front);
      InsertTrades(front, k, u.context);
      Balance(UserRules(out), multiset(front.Get(k)), UserRules(front), multiset(u.context.rules),
              Overwritten(passwd, u.front), UserRules(u.front));
    }
  }

  /** Of any two contexts with one uid, the earlier holds no rules. */
  ghost predicate EarlierNamesakesEmpty(passwd: Passwd, u: IndexMap) {
    forall i, j ::
      0 <= i < j < |u.Keys()| && Namesakes(passwd, u.Keys()[i], u.Keys()[j])
      ==> u.Get(u.Keys()[i]) == []
  }

  lemma {:induction false} OwnerIsLast(passwd: Passwd, names: seq<string>, uid: u32, i: nat)
    requires i < |names| && Denotes(passwd, names[i], uid)
    ensures exists j :: i <= j < |names| && Owner(passwd, names, uid) == Some(names[j])
                        && Denotes(passwd, names[j], uid)
  {
    hide Denotes;
    if i < |names| - 1 && !Denotes(passwd, names[|names| - 1], uid) {
      OwnerIsLast(passwd, names[..|names| - 1], uid, i);
      var j :| i <= j < |names| - 1 && Owner(passwd, names[..|names| - 1], uid) == Some(names[..|names| - 1][j]);
      assert names[..|names| - 1][j] == names[j];
    }
  }

  lemma FrontGet(u: IndexMap, i: nat)
    requires u.Entry? && i < |u.front.Keys()|
    ensures u.Keys()[i] == u.front.Keys()[i]
    ensures u.Get(u.Keys()[i]) == u.front.Get(u.Keys()[i])
  {
    KeysHas(u.front, u.key);
    assert u.front.Keys()[i] in u.front.Keys();
  }

  lemma {:induction false} NothingOverwritten(passwd: Passwd, u: IndexMap)
    requires ResolveUsers(passwd, u).Ok?
    ensures Overwritten(passwd, u) == multiset{} <==> EarlierNamesakesEmpty(passwd, u)
  {
    if u.Entry? {
      NothingOverwritten(passwd, u.front);
      var uid := Resolve(passwd, u.key).value;
      var front := ResolveUsers(passwd, u.front).value;
      var lost := front.Get(Show(uid));
      assert multiset(lost) == multiset{} <==> lost == [] by {
        if lost != [] { assert lost[0] in multiset(lost); }
      }
      if Overwritten(passwd, u) == multiset{} {
        EmptyWhenNothingLost(passwd, u, front, uid);
      }
      if EarlierNamesakesEmpty(passwd, u) {
        FrontNamesakesEmpty(passwd, u);
        NothingLostWhenEmpty(passwd, u, front, uid);
      }
    }
  }

  lemma FrontNamesakesEmpty(passwd: Passwd, u: IndexMap)
    requires u.Entry? && EarlierNamesakesEmpty(passwd, u)
    ensures EarlierNamesakesEmpty(passwd, u.front)
  {
    forall i, j | 0 <= i < j < |u.front.Keys()| && Namesakes(passwd, u.front.Keys()[i], u.front.Keys()[j])
      ensures u.front.Get(u.front.Keys()[i]) == []
    {
      FrontGet(u, i);
      FrontGet(u, j);
    }
  }

  lemma NothingLostWhenEmpty(passwd: Passwd, u: IndexMap, front: IndexMap, uid: u32)
    requires u.Entry? && Resolve(passwd, u.key) == Ok(uid) && ResolveUsers(passwd, u.front) == Ok(front)
    requires EarlierNamesakesEmpty(passwd, u)
    ensures front.Get(Show(uid)) == []
  {
    hide Denotes, Resolve;
    ResolvedOwner(passwd, u.front, front, uid);
    ResolveIff(passwd, u.key, uid);
    var n, owner := |u.front.Keys()|, Owner(passwd, u.front.Keys(), uid);
    assert u.Keys()[n] == u.key;
    if owner.Some? {
      assert Namesakes(passwd, owner.value, u.key);
      var i :| 0 <= i < n && u.front.Keys()[i] == owner.value;
      FrontGet(u, i);
    }
  }

  lemma EarlierNamesakeEmpty(passwd: Passwd, u: IndexMap, uid: u32, i: nat)
    requires EarlierNamesakesEmpty(passwd, u)
    requires Owner(passwd, u.Keys(), uid).Some? ==> u.Get(Owner(passwd, u.Keys(), uid).value) == []
    requires i < |u.Keys()| && Denotes(passwd, u.Keys()[i], uid)
    ensures u.Get(u.Keys()[i]) == []
  {
    hide Denotes;
    OwnerIsLast(passwd, u.Keys(), uid, i);
    var j :| i <= j < |u.Keys()| && Owner(passwd, u.Keys(), uid) == Some(u.Keys()[j]) && Denotes(passwd, u.Keys()[j], uid);
    if i < j {
      assert Namesakes(passwd, u.Keys()[i], u.Keys()[j]);
    }
  }

  lemma EmptyWhenNothingLost(passwd: Passwd, u: IndexMap, front: IndexMap, uid: u32)
    requires u.Entry? && Resolve(passwd, u.key) == Ok(uid) && ResolveUsers(passwd, u.front) == Ok(front)
    requires EarlierNamesakesEmpty(passwd, u.front) && front.Get(Show(uid)) == []
    ensures EarlierNamesakesEmpty(passwd, u)
  {
    var n := |u.front.Keys()|;
    assert u.Keys()[n] == u.key;
    ResolvedOwner(passwd, u.front, front, uid);
    hide Denotes, Resolve;
    ResolveIff(passwd, u.key, uid);
    forall i, j | 0 <= i < j < |u.Keys()| && Namesakes(passwd, u.Keys()[i], u.Keys()[j])
      ensures u.Get(u.Keys()[i]) == []
    {
      FrontGet(u, i);
      if j < n {
        FrontGet(u, j);
      } else {
        var shared: u32 :| Denotes(passwd, u.Keys()[i], shared) && Denotes(passwd, u.Keys()[j], shared);
        DenotesOne(passwd, u.key, shared, uid);
        EarlierNamesakeEmpty(passwd, u.front, uid, i);
      }
    }
  }

  /** Re-keying by uid keeps every user rule exactly when no context with rules is followed by
      another of the same uid. */
  lemma ReplacingUidsKeepsRules(passwd: Passwd, u: IndexMap, out: IndexMap)
    requires ResolveUsers(passwd, u) == Ok(out)
    ensures UserRules(out) == UserRules(u) <==> EarlierNamesakesEmpty(passwd, u)
  {
    ResolveBalance(passwd, u, out);
    NothingOverwritten(passwd, u);
  }

  /** A loss: "7" and "007" are one uid, so the rules filed under the first name vanish. */
  lemma CollidingNamesLoseRules(passwd: Passwd, r: Rule)
    ensures var u := Entry(Entry(Empty, "7", Context([r])), "007", Context([]));
            && u.Valid() && ResolveUsers(passwd, u).Ok?
            && UserRules(ResolveUsers(passwd, u).value) != UserRules(u)
  {
    assert DigitsValue("0") == 0 && DigitsValue("00") == 0 && DigitsValue("007") == 7 by {
      assert "0"[..0] == "" && "00"[..1] == "0" && "007"[..2] == "00";
    }
    assert ParseU32("7") == Some(7) && ParseU32("007") == Some(7);
    var first := Entry(Empty, "7", Context([r]));
    var u := Entry(first, "007", Context([]));
    assert first.Valid() && !first.Has("007");
    assert UserRules(first) == multiset([r]) && UserRules(u) == UserRules(first) + multiset([]);
    var resolved := Entry(Empty, Show(7), Context([r]));
    assert ResolveUsers(passwd, Empty) == Ok(Empty);
    assert ResolveUsers(passwd, first) == Ok(resolved);
    assert ResolveUsers(passwd, u) == Ok(Insert(resolved, Show(7), Context([])));
    assert Insert(resolved, Show(7), Context([])) == Entry(Empty, Show(7), Context([]));
    assert UserRules(Entry(Empty, Show(7), Context([]))) == multiset{};
  }
}
