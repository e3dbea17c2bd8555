/** whippet as it runs: the resolver with its cache, the policy object its passes update in
    place, and the whole compilation.  Each method is proved equal to the pass it performs, and
    `Compile` to have the meaning proved about those passes. */
module WhippetPolicy {
  import opened Wrappers
  import opened Decimal
  import opened PolicyModel
  import opened DbusModel
  import opened WhippetNames
  import opened WhippetLoad
  import WhippetPasses
  import opened WhippetConnect
  import opened WhippetRecords
  import opened WhippetAcceptance

  // ------------------------------------------------------------- walking a map in its order

  function Len(u: IndexMap): nat { if u.Empty? then 0 else Len(u.front) + 1 }

  /** The first n entries. */
  function Take(u: IndexMap, n: nat): (r: IndexMap)
    requires n <= Len(u)
    ensures n == 0 ==> r == Empty
  {
    if n == Len(u) then u else Take(u.front, n)
  }

  /** The entry at a position, with what comes before it. */
  function At(u: IndexMap, i: nat): (r: IndexMap)
    requires i < Len(u)
    ensures r == Take(u, i + 1) && r.Entry? && r.front == Take(u, i)
  {
    if i == Len(u) - 1 then u else At(u.front, i)
  }

  // ------------------------------------------------------------------------------- resolver

  class PasswdUsernameResolver {
    const passwd: Passwd
    var cache: map<string, u32>

    ghost predicate Valid()
      reads this
    {
      forall name :: name in cache ==> passwd(name) == Found(cache[name])
    }

    constructor (passwd: Passwd)
      ensures Valid() && this.passwd == passwd && cache == map[]
    {
      this.passwd := passwd;
      cache := map[];
    }

    /** The cache never changes an answer. */
    method Resolve(username: string) returns (r: Result<u32, Error>)
      requires Valid()
      modifies this
      ensures Valid()
      ensures r == PolicyModel.Resolve(passwd, username)
      ensures r.Ok? ==> Denotes(passwd, username, r.value)
      ensures r.Err? ==> !Known(passwd, username) && r.error == Complaint(passwd, username)
      ensures old(cache.Keys) <= cache.Keys <= old(cache.Keys) + {username}
    {
      ResolveFails(passwd, username);
      if PolicyModel.Resolve(passwd, username).Ok? {
        ResolveIff(passwd, username, PolicyModel.Resolve(passwd, username).value);
      }
      hide Denotes, Known;
      if username == "*" {
        return Ok(DEFAULT_USER_ID);
      }
      var numeric := ParseU32(username);
      if numeric.Some? {
        return Ok(numeric.value);
      }
      if username in cache {
        return Ok(cache[username]);
      }
      match passwd(username) {
        case Found(uid) =>
          cache := cache[username := uid];
          return Ok(uid);
        case Missing =>
          return Err(UserNotFound(username));
        case Failed =>
          return Err(UserLookupFailed(username));
      }
    }
  }

  // ------------------------------------------------------------------------------- stamping

  /** Wrapping early changes no later sum. */
  lemma {:induction false} WrapEarly(n: nat, m: nat)
    ensures Wrap(Wrap(n) + m) == Wrap(n + m)
  {
    if n >= 0x1_0000_0000_0000_0000 {
      WrapEarly(n - 0x1_0000_0000_0000_0000, m);
    }
  }

  lemma WrapSmall(n: u64)
    ensures Wrap(n) == n
  {
  }

  lemma NothingStamped(counter: nat)
    ensures RuleCount(Empty) == 0 && StampUsers(Empty, counter) == Empty
  {
  }

  lemma PriorityWraps(base: nat, counter: nat, n: nat)
    ensures Priority(base, Wrap(counter) + n) == Priority(base, counter + n)
  {
    WrapEarly(counter, base + n);
  }

  lemma {:induction false} StampWraps(rules: seq<Rule>, base: nat, counter: nat, m: nat)
    ensures Stamp(rules, base, Wrap(counter) + m) == Stamp(rules, base, counter + m)
  {
    if rules != [] {
      var n := |rules| - 1;
      StampWraps(rules[..n], base, counter, m);
      PriorityWraps(base, counter, m + n);
    }
  }

  /** The loop over one context's rules. */
  method StampRules(rules: seq<Rule>, base: nat, counter: u64) returns (out: seq<Rule>, next: u64)
    ensures out == Stamp(rules, base, counter)
    ensures next == Wrap(counter + |rules|)
  {
    out, next := [], counter;
    for i := 0 to |rules|
      invariant out == Stamp(rules[..i], base, counter)
      invariant next == Wrap(counter + i)
    {
      PriorityWraps(base, counter + i, 0);
      WrapEarly(counter + i, 1);
      assert rules[..i + 1][..i] == rules[..i];
      out := out + [SetPriority(rules[i], Priority(base, next))];
      next := Wrap(next + 1);
    }
    assert rules[..|rules|] == rules;
  }

  /** The loop over the user contexts. */
  method StampContexts(u: IndexMap, counter: u64) returns (out: IndexMap, next: u64)
    ensures out == StampUsers(u, counter)
    ensures next == Wrap(counter + RuleCount(u))
  {
    hide Stamp, Wrap;
    out, next := Empty, counter;
    assert next == Wrap(counter) by {
      WrapSmall(counter);
    }
    for i := 0 to Len(u)
      invariant out == StampUsers(Take(u, i), counter)
      invariant next == Wrap(counter + RuleCount(Take(u, i)))
    {
      var entry := At(u, i);
      ghost var before := counter + RuleCount(entry.front);
      StampWraps(entry.context.rules, USER_BASE, before, 0);
      WrapEarly(before, |entry.context.rules|);
      var rules;
      rules, next := StampRules(entry.context.rules, USER_BASE, next);
      assert rules == Stamp(entry.context.rules, USER_BASE, before);
      out := Entry(out, entry.key, Context(rules));
      assert out == StampUsers(entry, counter);
    }
  }

  // --------------------------------------------------------------------------------- policy

  class Policy {
    var default: Option<Context>
    var user: Option<IndexMap>

    ghost function View(): Config
      reads this
    {
      Config(default, user)
    }

    constructor (c: Config)
      ensures View() == c
    {
      default := c.default;
      user := c.user;
    }

    method SetRulePriorities(counter: u64) returns (next: u64)
      modifies this
      ensures View() == Stamped(old(View()), counter)
      ensures next == Wrap(counter + ConfigRuleCount(old(View())))
    {
      hide Stamp, StampUsers, Wrap;
      ghost var users := Users(View());
      WrapSmall(counter);
      NothingStamped(counter);
      next := counter;
      if user.Some? {
        var stamped;
        stamped, next := StampContexts(user.value, next);
        user := Some(stamped);
      }
      if default.Some? {
        StampWraps(default.value.rules, DEFAULT_BASE, counter + RuleCount(users), 0);
        WrapEarly(counter + RuleCount(users), |default.value.rules|);
        var rules;
        rules, next := StampRules(default.value.rules, DEFAULT_BASE, next);
        default := Some(Context(rules));
      }
    }

    /** A connect rule in a user context is refused, naming the first such context. */
    method Validate() returns (r: Result<(), Error>)
      ensures r == Validated(View())
    {
      if user.Some? {
        var u := user.value;
        for i := 0 to Len(u)
          invariant ValidUsers(Take(u, i)).Ok?
        {
          var entry := At(u, i);
          if exists rule :: rule in entry.context.rules && IsConnect(rule) {
            RefusedEarly(u, i + 1);
            return Err(UserContextWithConnectRule(entry.key));
          }
        }
      }
      r := Ok(());
    }

    /** Names become uids, in place. */
    method ReplaceUids(resolver: PasswdUsernameResolver) returns (r: Result<(), Error>)
      requires resolver.Valid()
      modifies this, resolver
      ensures resolver.Valid()
      ensures r.Ok? ==> Resolved(resolver.passwd, old(View())) == Ok(View())
      ensures r.Err? ==> Resolved(resolver.passwd, old(View())) == Err(r.error)
                         && View() == LeftUnresolved(resolver.passwd, old(View()))
    {
      if default.Some? {
        var replaced, rules := ResolveDefault(resolver, default.value.rules);
        default := Some(Context(rules));
        if replaced.Err? {
          return Err(replaced.error);
        }
      }
      var contexts := if user.Some? then user.value else Empty;
      user := None;
      var users := ResolveContexts(resolver, contexts);
      if users.Err? {
        return Err(users.error);
      }
      user := Some(users.value);
      r := Ok(());
    }

    method Prepare()
      modifies this
      ensures View() == Prepared(old(View()))
    {
      var connectRules: seq<Rule> := [];
      if default.Some? {
        var rules := default.value.rules;
        var rest: seq<Rule> := [];
        for i := 0 to |rules|
          invariant connectRules == Filter(rules[..i], Movable)
          invariant rest == Filter(rules[..i], Stays)
        {
          assert rules[..i + 1][..i] == rules[..i];
          if Movable(rules[i]) {
            connectRules := connectRules + [rules[i]];
          } else {
            rest := rest + [rules[i]];
          }
        }
        assert rules[..|rules|] == rules;
        default := Some(Context(rest));
      }
      if connectRules == [] {
        NothingMoved(old(View()));
        return;
      }
      var users: IndexMap := if user.Some? then user.value else Empty;
      assert connectRules == MovedRules(old(View()));
      while connectRules != []
        invariant forall r :: r in connectRules ==> IsConnect(r)
        invariant PopInto(users, connectRules) == PopInto(Users(old(View())), MovedRules(old(View())))
      {
        var rule := connectRules[|connectRules| - 1];
        assert rule in connectRules && IsConnect(rule);
        connectRules := connectRules[..|connectRules| - 1];
        users := Extend(users, rule.user, [rule]);
      }
      user := Some(users);
    }

    method Optimize()
      modifies this
      ensures View() == Optimized(old(View()))
    {
      var threshold: u64 := if default.Some? then Threshold(default.value.rules) else 0;
      if default.Some? {
        default := Some(Context(Filter(default.value.rules, Survives(threshold))));
      }
      if user.Some? {
        var u := user.value;
        var kept: IndexMap := Empty;
        for i := 0 to Len(u)
          invariant kept == OptimizedUsers(threshold, Take(u, i))
        {
          var entry := At(u, i);
          var userThreshold := Threshold(entry.context.rules);
          if threshold > userThreshold {
            userThreshold := threshold;
          }
          var rules := Filter(entry.context.rules, Survives(userThreshold));
          if rules != [] {
            kept := Entry(kept, entry.key, Context(rules));
          }
        }
        user := Some(kept);
      }
    }
  }

  lemma {:induction false} RefusedEarly(u: IndexMap, n: nat)
    requires n <= Len(u) && ValidUsers(Take(u, n)).Err?
    ensures ValidUsers(u) == ValidUsers(Take(u, n))
  {
    if n < Len(u) {
      RefusedEarly(u.front, n);
    }
  }

  lemma NothingMoved(c: Config)
    requires MovedRules(c) == []
    ensures Filter(DefaultRules(c), Stays) == DefaultRules(c)
  {
    forall r | r in DefaultRules(c) ensures Stays(r) {
      assert r !in MovedRules(c);
    }
    WhippetPasses.FilterAll(DefaultRules(c), Stays);
  }

  lemma {:induction false} RulesFailEarly(passwd: Passwd, rules: seq<Rule>, n: nat)
    requires n <= |rules| && ResolveRules(passwd, rules[..n]).Err?
    ensures ResolveRules(passwd, rules) == ResolveRules(passwd, rules[..n])
  {
    if n == |rules| {
      assert rules[..n] == rules;
    } else {
      assert rules[..|rules| - 1][..n] == rules[..n];
      RulesFailEarly(passwd, rules[..|rules| - 1], n);
    }
  }

  lemma {:induction false} UsersFailEarly(passwd: Passwd, u: IndexMap, n: nat)
    requires n <= Len(u) && ResolveUsers(passwd, Take(u, n)).Err?
    ensures ResolveUsers(passwd, u) == ResolveUsers(passwd, Take(u, n))
  {
    if n < Len(u) {
      UsersFailEarly(passwd, u.front, n);
    }
  }

  lemma {:induction false} RestUnresolved(passwd: Passwd, rules: seq<Rule>, n: nat)
    requires n <= |rules| && ResolveRules(passwd, rules[..n]).Err?
    ensures ResolvedSoFar(passwd, rules) == ResolvedSoFar(passwd, rules[..n]) + rules[n..]
  {
    hide ResolveRules, ResolveRule;
    if n == |rules| {
      assert rules[..n] == rules && rules[n..] == [];
    } else {
      var front, last := rules[..|rules| - 1], rules[|rules| - 1];
      assert front[..n] == rules[..n];
      RestUnresolved(passwd, front, n);
      RulesFailEarly(passwd, front, n);
      assert ResolvedSoFar(passwd, rules) == ResolvedSoFar(passwd, front) + [last];
      assert front[n..] + [last] == rules[n..];
    }
  }

  /** The first i rules are resolved, the others as they were. */
  ghost predicate ResolvedTo(passwd: Passwd, rules: seq<Rule>, i: nat, out: seq<Rule>) {
    && i <= |rules| == |out|
    && out[i..] == rules[i..]
    && ResolveRules(passwd, rules[..i]) == Ok(out[..i])
  }

  lemma NextRule(passwd: Passwd, rules: seq<Rule>, i: nat, out: seq<Rule>)
    requires ResolvedTo(passwd, rules, i, out) && i < |rules|
    ensures |out| == |rules| && out[i] == rules[i]
    ensures ResolveRules(passwd, rules[..i + 1]) ==
            match ResolveRule(passwd, rules[i]) { case Ok(r) => Ok(out[..i] + [r]) case Err(e) => Err(e) }
  {
    hide ResolveRule;
    assert rules[..i + 1][..i] == rules[..i];
    assert out[i] == out[i..][0] == rules[i..][0];
  }

  lemma RuleResolved(passwd: Passwd, rules: seq<Rule>, i: nat, out: seq<Rule>, r: Rule)
    requires ResolvedTo(passwd, rules, i, out) && i < |rules| == |out| && ResolveRule(passwd, rules[i]) == Ok(r)
    ensures ResolvedTo(passwd, rules, i + 1, out[i := r])
  {
    hide ResolveRules, ResolveRule;
    NextRule(passwd, rules, i, out);
    var next := out[i := r];
    assert next[..i + 1] == out[..i] + [r];
    assert next[i + 1..] == out[i..][1..] == rules[i..][1..] == rules[i + 1..];
  }

  /** A failing rule is left as it was, behind the resolved ones. */
  lemma FailureLeft(passwd: Passwd, rules: seq<Rule>, i: nat, front: seq<Rule>, e: Error)
    requires i < |rules| && ResolveRules(passwd, rules[..i]) == Ok(front)
    requires ResolveRule(passwd, rules[i]) == Err(e)
    ensures ResolvedSoFar(passwd, rules[..i + 1]) == front + [rules[i]]
  {
    hide ResolveRule;
    assert rules[..i + 1][..i] == rules[..i];
  }

  lemma Reassembled(rules: seq<Rule>, i: nat, out: seq<Rule>)
    requires i < |rules| == |out| && out[i..] == rules[i..]
    ensures out == out[..i] + [rules[i]] + rules[i + 1..]
  {
    assert out == out[..i] + out[i..] && rules[i..] == [rules[i]] + rules[i + 1..];
  }

  lemma RuleUnresolved(passwd: Passwd, rules: seq<Rule>, i: nat, out: seq<Rule>, e: Error)
    requires ResolvedTo(passwd, rules, i, out) && i < |rules| && ResolveRule(passwd, rules[i]) == Err(e)
    ensures ResolveRules(passwd, rules) == Err(e) && out == ResolvedSoFar(passwd, rules)
  {
    hide ResolveRules, ResolvedSoFar, ResolveRule;
    NextRule(passwd, rules, i, out);
    RulesFailEarly(passwd, rules, i + 1);
    RestUnresolved(passwd, rules, i + 1);
    FailureLeft(passwd, rules, i, out[..i], e);
    Reassembled(rules, i, out);
  }

  lemma AllResolved(passwd: Passwd, rules: seq<Rule>, out: seq<Rule>)
    requires ResolvedTo(passwd, rules, |rules|, out)
    ensures ResolveRules(passwd, rules) == Ok(out) && out == ResolvedSoFar(passwd, rules)
  {
    assert rules[..|rules|] == rules && out[..|rules|] == out;
  }

  /** `try_for_each` over the default rules, which it changes one by one. */
  method ResolveDefault(resolver: PasswdUsernameResolver, rules: seq<Rule>)
    returns (r: Result<(), Error>, out: seq<Rule>)
    requires resolver.Valid()
    modifies resolver
    ensures resolver.Valid()
    ensures out == ResolvedSoFar(resolver.passwd, rules)
    ensures r.Ok? ==> ResolveRules(resolver.passwd, rules) == Ok(out)
    ensures r.Err? ==> ResolveRules(resolver.passwd, rules) == Err(r.error)
  {
    out := rules;
    assert ResolvedTo(resolver.passwd, rules, 0, out);
    hide ResolveRules, ResolvedSoFar, ResolvedTo;
    for i := 0 to |rules|
      invariant resolver.Valid()
      invariant ResolvedTo(resolver.passwd, rules, i, out)
    {
      NextRule(resolver.passwd, rules, i, out);
      var rule := out[i];
      if IsConnect(rule) {
        var uid := resolver.Resolve(rule.user);
        if uid.Err? {
          RuleUnresolved(resolver.passwd, rules, i, out, uid.error);
          return Err(uid.error), out;
        }
        rule := rule.(user := Show(uid.value));
      }
      RuleResolved(resolver.passwd, rules, i, out, rule);
      out := out[i := rule];
    }
    AllResolved(resolver.passwd, rules, out);
    r := Ok(());
  }

  method ResolveContexts(resolver: PasswdUsernameResolver, u: IndexMap) returns (r: Result<IndexMap, Error>)
    requires resolver.Valid()
    modifies resolver
    ensures resolver.Valid()
    ensures r == ResolveUsers(resolver.passwd, u)
  {
    hide Show, PolicyModel.Resolve, Insert;
    var out: IndexMap := Empty;
    for i := 0 to Len(u)
      invariant resolver.Valid()
      invariant ResolveUsers(resolver.passwd, Take(u, i)) == Ok(out)
    {
      var entry := At(u, i);
      var uid := resolver.Resolve(entry.key);
      if uid.Err? {
        UsersFailEarly(resolver.passwd, u, i + 1);
        return Err(uid.error);
      }
      out := Insert(out, Show(uid.value), entry.context);
    }
    r := Ok(out);
  }

  // -------------------------------------------------------------------------------- loading

  method LoadOnePolicy(file: Config, base: Policy, counter: u64) returns (next: u64)
    modifies base
    ensures base.View() == Merged(old(base.View()), Stamped(file, counter))
    ensures next == Wrap(counter + ConfigRuleCount(file))
  {
    var policy := new Policy(file);
    next := policy.SetRulePriorities(counter);

    var defaultRules := if policy.default.Some? then policy.default.value.rules else [];
    var baseRules := if base.default.Some? then base.default.value.rules else [];
    base.default := Some(Context(baseRules + defaultRules));

    var from: IndexMap := if policy.user.Some? then policy.user.value else Empty;
    var users: IndexMap := if base.user.Some? then base.user.value else Empty;
    ghost var before := users;
    for i := 0 to Len(from)
      invariant users == MergeUsers(before, Take(from, i))
    {
      var entry := At(from, i);
      users := Extend(users, entry.key, entry.context.rules);
    }
    base.user := Some(users);
  }

  lemma LoadWraps(c: Config, counter: nat, wrapped: u64)
    requires wrapped == Wrap(counter)
    ensures Stamped(c, wrapped) == Stamped(c, counter)
  {
    UsersWrap(Users(c), counter);
    StampWraps(DefaultRules(c), DEFAULT_BASE, counter, RuleCount(Users(c)));
    assert Stamped(c, wrapped).default == Stamped(c, counter).default;
    assert Stamped(c, wrapped).user == Stamped(c, counter).user;
  }

  lemma {:induction false} UsersWrap(u: IndexMap, counter: nat)
    ensures StampUsers(u, Wrap(counter)) == StampUsers(u, counter)
  {
    if u.Entry? {
      UsersWrap(u.front, counter);
      StampWraps(u.context.rules, USER_BASE, counter, RuleCount(u.front));
    }
  }

  /** One more file loaded, with the counter as the machine holds it. */
  lemma LoadStep(files: seq<Config>, i: nat, base: Config, counter: u64, loaded: Config)
    requires i < |files| && base == Loaded(files[..i])
    requires counter == Wrap(FIRST_PRIORITY + TotalRules(files[..i]))
    requires loaded == Merged(base, Stamped(files[i], counter))
    ensures loaded == Loaded(files[..i + 1])
    ensures Wrap(counter + ConfigRuleCount(files[i])) == Wrap(FIRST_PRIORITY + TotalRules(files[..i + 1]))
  {
    hide *;
    var before := FIRST_PRIORITY + TotalRules(files[..i]);
    LoadedSnoc(files[..i], files[i], files[..i + 1]);
    LoadWraps(files[i], before, counter);
    WrapEarly(before, ConfigRuleCount(files[i]));
  }

  lemma LoadedSnoc(before: seq<Config>, file: Config, files: seq<Config>)
    requires files == before + [file]
    ensures Loaded(files) == Merged(Loaded(before), Stamped(file, FIRST_PRIORITY + TotalRules(before)))
    ensures TotalRules(files) == TotalRules(before) + ConfigRuleCount(file)
  {
    hide Merged, Stamped, ConfigRuleCount;
    assert files[..|files| - 1] == before;
  }

  /** The state of a load run before file i. */
  ghost predicate LoadedBefore(files: seq<Config>, i: nat, c: Config, counter: u64)
    requires i <= |files|
  {
    c == Loaded(files[..i]) && counter == Wrap(FIRST_PRIORITY + TotalRules(files[..i]))
  }

  method LoadNext(files: seq<Config>, i: nat, policy: Policy, counter: u64) returns (next: u64)
    requires i < |files| && LoadedBefore(files, i, policy.View(), counter)
    modifies policy
    ensures LoadedBefore(files, i + 1, policy.View(), next)
  {
    hide Loaded, TotalRules, Merged, Stamped, ConfigRuleCount;
    ghost var base := policy.View();
    next := LoadOnePolicy(files[i], policy, counter);
    LoadStep(files, i, base, counter, policy.View());
  }

  /** The loop over all files. */
  method LoadAll(files: seq<Config>) returns (policy: Policy)
    ensures fresh(policy)
    ensures policy.View() == Loaded(files)
  {
    var counter: u64 := FIRST_PRIORITY;
    policy := new Policy(Config(None, None));
    for i := 0 to |files|
      invariant LoadedBefore(files, i, policy.View(), counter)
    {
      counter := LoadNext(files, i, policy, counter);
    }
    assert files[..|files|] == files;
  }

  /** All files loaded, validated and resolved, as `Policy::new`. */
  method NewPolicy(files: seq<Config>, resolver: PasswdUsernameResolver) returns (r: Result<Policy, Error>)
    requires resolver.Valid()
    modifies resolver
    ensures resolver.Valid()
    ensures r.Ok? ==>
              && fresh(r.value)
              && Validated(Loaded(files)).Ok?
              && Resolved(resolver.passwd, Loaded(files)) == Ok(r.value.View())
    ensures r.Err? ==> Compiled(resolver.passwd, files) == Err(r.error)
  {
    var policy := LoadAll(files);
    var valid := policy.Validate();
    if valid.Err? {
      return Err(valid.error);
    }
    var replaced := policy.ReplaceUids(resolver);
    if replaced.Err? {
      return Err(replaced.error);
    }
    r := Ok(policy);
  }

  // ------------------------------------------------------------------------------- lowering

  method ToBatch(context: Context) returns (batch: PolicyBatch)
    ensures batch == BatchOf(context.rules)
  {
    var rules := context.rules;
    batch := NO_RULES;
    for i := 0 to |rules|
      invariant batch == BatchOf(rules[..i])
    {
      assert rules[..i + 1][..i] == rules[..i];
      match rules[i] {
        case ConnectUser(allow, _, priority) =>
          batch := batch.(connectVerdict := allow, connectPriority := priority);
        case Own(_, _, _) =>
          batch := batch.(ownRules := batch.ownRules + [ToRecord(OwnKind, rules[i]).value]);
        case Send(_, _, _, _, _, _, _, _) =>
          batch := batch.(sendRules := batch.sendRules + [ToRecord(SendKind, rules[i]).value]);
        case Receive(_, _, _, _, _, _, _, _) =>
          batch := batch.(receiveRules := batch.receiveRules + [ToRecord(ReceiveKind, rules[i]).value]);
      }
    }
    assert rules[..|rules|] == rules;
  }

  lemma {:induction false} EntriesFailEarly(default_: PolicyBatch, u: IndexMap, n: nat)
    requires n <= Len(u) && UserEntries(default_, Take(u, n)).Err?
    ensures UserEntries(default_, u) == UserEntries(default_, Take(u, n))
  {
    if n < Len(u) {
      EntriesFailEarly(default_, u.front, n);
    }
  }

  /** The batch of one user context. */
  method ToUserBatch(defaultBatch: PolicyBatch, context: Context) returns (batch: PolicyBatch)
    ensures batch == UserBatch(defaultBatch, context.rules)
  {
    batch := ToBatch(context);
    if !HasConnectRule(context.rules) {
      batch := batch.(connectVerdict := defaultBatch.connectVerdict,
                      connectPriority := defaultBatch.connectPriority);
    }
    batch := batch.CopyRulesFrom(defaultBatch);
  }

  method ToDbusPolicy(policy: Policy) returns (r: Result<DbusPolicy, Error>)
    ensures r == Converted(policy.View())
  {
    hide UserBatch, BatchOf, ParseU32;
    var dbus := NEW_DBUS_POLICY;
    var defaultBatch := NO_RULES.(connectPriority := 1);
    if policy.default.Some? {
      defaultBatch := ToBatch(policy.default.value);
    }
    dbus := dbus.(uidEntries := [UidEntry(DEFAULT_USER_ID, defaultBatch)]);
    var u: IndexMap := if policy.user.Some? then policy.user.value else Empty;
    var entries: seq<UidEntry> := [];
    for i := 0 to Len(u)
      invariant UserEntries(defaultBatch, Take(u, i)) == Ok(entries)
    {
      var entry := At(u, i);
      var batch := ToUserBatch(defaultBatch, entry.context);
      var uid := ParseU32(entry.key);
      if uid.None? {
        EntriesFailEarly(defaultBatch, u, i + 1);
        return Err(ParseUid(entry.key));
      }
      entries := entries + [UidEntry(uid.value, batch)];
    }
    r := Ok(dbus.(uidEntries := dbus.uidEntries + entries));
  }

  /** The whole compiler.  It succeeds exactly on acceptable input, and then every uid gets the
      connect verdict and the deciding own, send and receive records its files ask for. */
  method Compile(files: seq<Config>, resolver: PasswdUsernameResolver) returns (r: Result<DbusPolicy, Error>)
    requires resolver.Valid()
    modifies resolver
    ensures resolver.Valid()
    ensures r == Compiled(resolver.passwd, files)
    ensures r.Ok? <==> Acceptable(resolver.passwd, files)
    ensures r.Err? ==> Explains(resolver.passwd, files, r.error)
    ensures r.Ok? ==> r.value == DbusPolicy(r.value.uidEntries, [], [], false, "system")
    ensures r.Ok? && DefaultsFit(files) ==>
              forall uid: u32 ::
                && EffectiveBatch(r.value, uid).Some?
                && EffectiveBatch(r.value, uid).value.connectVerdict ==
                   LastVerdict(resolver.passwd, RawDefaults(files), uid)
                && FindsLast(resolver.passwd, DefaultRules(Loaded(files)), uid, EffectiveBatch(r.value, uid).value,
                             if files == [] then 1 else 0)
    ensures r.Ok? && Loadable(files) ==>
              forall uid: u32, kind, matches: Matcher ::
                && EffectiveBatch(r.value, uid).Some?
                && UnrankedOption(Decide(EffectiveBatch(r.value, uid).value.Records(kind), matches)) ==
                   Expected(resolver.passwd, files, uid, kind, matches)
  {
    CompilesIff(resolver.passwd, files);
    if Compiled(resolver.passwd, files).Err? {
      CompileErrors(resolver.passwd, files, Compiled(resolver.passwd, files).error);
    }
    var policy := NewPolicy(files, resolver);
    if policy.Err? {
      return Err(policy.error);
    }
    policy.value.Prepare();
    policy.value.Optimize();
    r := ToDbusPolicy(policy.value);
    if r.Ok? && DefaultsFit(files) {
      forall uid: u32
        ensures EffectiveBatch(r.value, uid).Some?
        ensures EffectiveBatch(r.value, uid).value.connectVerdict ==
                LastVerdict(resolver.passwd, RawDefaults(files), uid)
        ensures FindsLast(resolver.passwd, DefaultRules(Loaded(files)), uid, EffectiveBatch(r.value, uid).value,
                          if files == [] then 1 else 0)
      {
        ConnectFields(resolver.passwd, files, uid, r.value);
        ConnectMeaning(resolver.passwd, files, uid, r.value);
      }
    }
    if r.Ok? && Loadable(files) {
      forall uid: u32, kind, matches: Matcher
        ensures EffectiveBatch(r.value, uid).Some?
        ensures UnrankedOption(Decide(EffectiveBatch(r.value, uid).value.Records(kind), matches)) ==
                Expected(resolver.passwd, files, uid, kind, matches)
      {
        RecordMeaning(resolver.passwd, files, uid, r.value, kind, matches);
      }
    }
  }
}
