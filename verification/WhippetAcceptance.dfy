/** Exactly which inputs the compiler accepts, and when the uids of its output are distinct. */
module WhippetAcceptance {
  import opened Wrappers
  import opened Decimal
  import opened PolicyModel
  import opened DbusModel
  import opened WhippetNames
  import opened WhippetLoad
  import opened WhippetPasses
  import opened WhippetLowering
  import opened WhippetConnect
  import opened WhippetRecords

  predicate Connectless(rules: seq<Rule>) { forall r :: r in rules ==> !IsConnect(r) }

  ghost predicate AllKnown(passwd: Passwd, rules: seq<Rule>) {
    forall r :: r in rules && IsConnect(r) ==> Known(passwd, r.user)
  }

  ghost predicate UsersConnectless(files: seq<Config>) { forall name :: Connectless(RawUser(files, name)) }

  /** Connect rules only in default contexts, and every name known. */
  ghost predicate Acceptable(passwd: Passwd, files: seq<Config>) {
    && UsersConnectless(files)
    && AllKnown(passwd, RawDefaults(files))
    && (forall name :: name in NameOrder(files) ==> Known(passwd, name))
  }

  lemma {:induction false} ValidatedIff(u: IndexMap)
    ensures ValidUsers(u).Ok? <==> NoConnects(u)
  {
    if ValidUsers(u).Ok? {
      ValidatedNoConnects(u);
    }
    if NoConnects(u) && u.Entry? {
      FrontNoConnects(u);
      ValidatedIff(u.front);
      assert u.Get(u.key) == u.context.rules;
    }
  }

  lemma {:induction false} RulesResolveIff(passwd: Passwd, rules: seq<Rule>)
    ensures ResolveRules(passwd, rules).Ok? <==> AllKnown(passwd, rules)
  {
    hide Known, Resolve;
    if rules != [] {
      RulesResolveIff(passwd, rules[..|rules| - 1]);
      if IsConnect(rules[|rules| - 1]) {
        ResolveFails(passwd, rules[|rules| - 1].user);
      }
      assert rules == rules[..|rules| - 1] + [rules[|rules| - 1]];
    }
  }

  lemma {:induction false} UsersResolveIff(passwd: Passwd, u: IndexMap)
    ensures ResolveUsers(passwd, u).Ok? <==> forall k :: k in u.Keys() ==> Known(passwd, k)
  {
    hide Known, Resolve;
    if u.Entry? {
      ResolveFails(passwd, u.key);
      UsersResolveIff(passwd, u.front);
    }
  }

  /** Lists with the same text hold the same connect rules, up to priority. */
  lemma SameText(passwd: Passwd, a: seq<Rule>, b: seq<Rule>)
    requires Bare(a) == Bare(b)
    ensures Connectless(a) ==> Connectless(b)
    ensures AllKnown(passwd, a) ==> AllKnown(passwd, b)
  {
    forall r | r in b && IsConnect(r)
      ensures exists q :: q in a && IsConnect(q) && q.user == r.user
    {
      var i :| 0 <= i < |b| && b[i] == r;
      assert Bare(a)[i] == Bare(b)[i] && a[i] in a;
    }
  }

  lemma LoadedContextConnectless(passwd: Passwd, files: seq<Config>, name: string)
    ensures Connectless(Users(Loaded(files)).Get(name)) <==> Connectless(RawUser(files, name))
    ensures AllKnown(passwd, DefaultRules(Loaded(files))) <==> AllKnown(passwd, RawDefaults(files))
  {
    LoadingKeepsText(files, name);
    var loaded := Loaded(files);
    SameText(passwd, Users(loaded).Get(name), RawUser(files, name));
    SameText(passwd, RawUser(files, name), Users(loaded).Get(name));
    SameText(passwd, DefaultRules(loaded), RawDefaults(files));
    SameText(passwd, RawDefaults(files), DefaultRules(loaded));
  }

  lemma LoadedConnectless(passwd: Passwd, files: seq<Config>, u: IndexMap)
    requires u == Users(Loaded(files))
    ensures NoConnects(u) <==> UsersConnectless(files)
  {
    forall name
      ensures Connectless(u.Get(name)) <==> Connectless(RawUser(files, name))
    {
      LoadedContextConnectless(passwd, files, name);
    }
    if NoConnects(u) {
      forall name ensures Connectless(RawUser(files, name)) {
        assert Connectless(u.Get(name));
      }
    }
    if UsersConnectless(files) {
      forall name, r | r in u.Get(name) ensures !IsConnect(r) {
        assert Connectless(RawUser(files, name));
      }
    }
  }

  /** Compilation succeeds exactly for acceptable input; in particular the passes after loading
      and resolving never fail. */
  lemma CompilesIff(passwd: Passwd, files: seq<Config>)
    ensures Compiled(passwd, files).Ok? <==> Acceptable(passwd, files)
  {
    var loaded := Loaded(files);
    ValidatedIff(Users(loaded));
    LoadedConnectless(passwd, files, Users(loaded));
    RulesResolveIff(passwd, DefaultRules(loaded));
    LoadedContextConnectless(passwd, files, "");
    UsersResolveIff(passwd, Users(loaded));
    LoadingKeepsNameOrder(files);
    assert Acceptable(passwd, files) <==> Validated(loaded).Ok? && Resolved(passwd, loaded).Ok?;
    if Resolved(passwd, loaded).Ok? {
      var resolved := Resolved(passwd, loaded).value;
      PipelineUidKeys(passwd, loaded, resolved);
      BatchFound(Optimized(Prepared(resolved)), 0);
    }
  }

  // -------------------------------------------------------------------- what is complained about

  /** The first context, in order, that holds a connect rule. */
  ghost predicate FirstConnecting(names: seq<string>, rules: string -> seq<Rule>, i: nat) {
    i < |names| && !Connectless(rules(names[i])) && forall j :: 0 <= j < i ==> Connectless(rules(names[j]))
  }

  /** The first connect rule, in order, for an unknown name. */
  ghost predicate FirstUnknownRule(passwd: Passwd, rules: seq<Rule>, i: nat) {
    i < |rules| && !RuleKnown(passwd, rules[i]) && forall j :: 0 <= j < i ==> RuleKnown(passwd, rules[j])
  }

  ghost predicate RuleKnown(passwd: Passwd, r: Rule) { IsConnect(r) ==> Known(passwd, r.user) }

  ghost predicate FirstUnknownName(passwd: Passwd, names: seq<string>, i: nat) {
    i < |names| && !Known(passwd, names[i]) && forall j :: 0 <= j < i ==> Known(passwd, names[j])
  }

  lemma {:induction false} ContextRefused(u: IndexMap) returns (i: nat)
    requires ValidUsers(u).Err?
    ensures FirstConnecting(u.Keys(), k => u.Get(k), i)
    ensures ValidUsers(u) == Err(UserContextWithConnectRule(u.Keys()[i]))
  {
    var n := |u.front.Keys()|;
    assert u.Keys()[n] == u.key;
    if ValidUsers(u.front).Err? {
      i := ContextRefused(u.front);
      forall j | 0 <= j <= i ensures u.Keys()[j] == u.front.Keys()[j] && u.Get(u.Keys()[j]) == u.front.Get(u.Keys()[j]) {
        FrontGet(u, j);
      }
    } else {
      i := n;
      ValidatedNoConnects(u.front);
      forall j | 0 <= j < n ensures Connectless(u.Get(u.Keys()[j])) {
        FrontGet(u, j);
      }
    }
  }

  lemma {:induction false} RuleRefused(passwd: Passwd, rules: seq<Rule>) returns (i: nat)
    requires ResolveRules(passwd, rules).Err?
    ensures FirstUnknownRule(passwd, rules, i) && IsConnect(rules[i])
    ensures ResolveRules(passwd, rules) == Err(Complaint(passwd, rules[i].user))
  {
    hide Known, Resolve, Complaint;
    var n := |rules| - 1;
    if ResolveRules(passwd, rules[..n]).Err? {
      i := RuleRefused(passwd, rules[..n]);
      assert forall j :: 0 <= j <= i ==> rules[..n][j] == rules[j];
    } else {
      i := n;
      RulesResolveIff(passwd, rules[..n]);
      ResolveFails(passwd, rules[n].user);
      UnknownComplaint(passwd, rules[n].user);
      forall j | 0 <= j < n ensures RuleKnown(passwd, rules[j]) {
        assert rules[..n][j] in rules[..n];
      }
    }
  }

  lemma {:induction false} NameRefused(passwd: Passwd, u: IndexMap) returns (i: nat)
    requires ResolveUsers(passwd, u).Err?
    ensures FirstUnknownName(passwd, u.Keys(), i)
    ensures ResolveUsers(passwd, u) == Err(Complaint(passwd, u.Keys()[i]))
  {
    hide Known, Resolve, Complaint;
    var n := |u.front.Keys()|;
    assert u.Keys()[n] == u.key;
    if ResolveUsers(passwd, u.front).Err? {
      i := NameRefused(passwd, u.front);
    } else {
      i := n;
      UsersResolveIff(passwd, u.front);
      ResolveFails(passwd, u.key);
      UnknownComplaint(passwd, u.key);
      forall j | 0 <= j < n ensures Known(passwd, u.Keys()[j]) {
        assert u.front.Keys()[j] in u.front.Keys();
      }
    }
  }

  /** What a failed resolution leaves in the policy.  If a default rule's name was unknown, the rules
      before the first such rule have their uids, it and the others are as they were, and so are the
      user contexts.  If a context's name was, all default rules have their uids and no user context
      is left. */
  lemma FailureLeaves(passwd: Passwd, c: Config)
    requires Resolved(passwd, c).Err?
    ensures var left := LeftUnresolved(passwd, c);
            if AllKnown(passwd, DefaultRules(c)) then
              && left.user.None?
              && ResolveRules(passwd, DefaultRules(c)) == Ok(DefaultRules(left))
            else
              && left.user == c.user
              && exists i: nat ::
                   && FirstUnknownRule(passwd, DefaultRules(c), i) && |DefaultRules(left)| == |DefaultRules(c)|
                   && ResolveRules(passwd, DefaultRules(c)[..i]) == Ok(DefaultRules(left)[..i])
                   && DefaultRules(left)[i..] == DefaultRules(c)[i..]
  {
    var rules := DefaultRules(c);
    RulesResolveIff(passwd, rules);
    if !AllKnown(passwd, rules) {
      hide Known, ResolveRule;
      var i := RuleRefused(passwd, rules);
      assert FirstUnknownRule(passwd, rules, i);
      FrontKnown(passwd, rules, i);
      RuleFails(passwd, rules[i]);
      SoFarSplits(passwd, rules, i);
    }
  }

  lemma RuleFails(passwd: Passwd, r: Rule)
    ensures ResolveRule(passwd, r).Err? <==> !RuleKnown(passwd, r)
  {
    if IsConnect(r) {
      ResolveFails(passwd, r.user);
    }
  }

  lemma FrontKnown(passwd: Passwd, rules: seq<Rule>, i: nat)
    requires FirstUnknownRule(passwd, rules, i)
    ensures ResolveRules(passwd, rules[..i]).Ok?
  {
    hide Known;
    forall r | r in rules[..i] && IsConnect(r) ensures Known(passwd, r.user) {
      var j :| 0 <= j < i && rules[..i][j] == r;
      assert RuleKnown(passwd, rules[j]);
    }
    RulesResolveIff(passwd, rules[..i]);
  }

  lemma SoFarLast(passwd: Passwd, rules: seq<Rule>, n: nat)
    requires |rules| == n + 1
    ensures ResolvedSoFar(passwd, rules)[..n] == ResolvedSoFar(passwd, rules[..n])
    ensures ResolveRules(passwd, rules[..n]).Err? || ResolveRule(passwd, rules[n]).Err? ==>
              ResolvedSoFar(passwd, rules)[n] == rules[n]
  {
    hide ResolveRules, ResolveRule;
  }

  lemma FailsHere(passwd: Passwd, rules: seq<Rule>, i: nat)
    requires i < |rules| && ResolveRule(passwd, rules[i]).Err?
    ensures ResolveRules(passwd, rules[..i + 1]).Err?
  {
    hide ResolveRule;
    assert rules[..i + 1][..i] == rules[..i];
  }

  lemma SoFarAll(passwd: Passwd, rules: seq<Rule>)
    requires ResolveRules(passwd, rules).Ok?
    ensures ResolveRules(passwd, rules) == Ok(ResolvedSoFar(passwd, rules))
  {
    hide ResolveRules;
  }

  lemma Regrouped(rules: seq<Rule>, out: seq<Rule>, i: nat, n: nat)
    requires i < n && |rules| == |out| == n + 1
    requires out[..n][i..] == rules[..n][i..] && out[n] == rules[n]
    ensures out[..n][..i] == out[..i] && out[i..] == rules[i..]
  {
    assert out[i..] == out[..n][i..] + [out[n]] && rules[i..] == rules[..n][i..] + [rules[n]];
  }

  lemma {:induction false} SoFarSplits(passwd: Passwd, rules: seq<Rule>, i: nat)
    requires i < |rules| && ResolveRules(passwd, rules[..i]).Ok? && ResolveRule(passwd, rules[i]).Err?
    ensures ResolveRules(passwd, rules[..i]) == Ok(ResolvedSoFar(passwd, rules)[..i])
    ensures ResolvedSoFar(passwd, rules)[i..] == rules[i..]
  {
    hide ResolveRules, ResolveRule, ResolvedSoFar;
    var n, out := |rules| - 1, ResolvedSoFar(passwd, rules);
    SoFarLast(passwd, rules, n);
    if i < n {
      var front := rules[..n];
      assert front[..i] == rules[..i] && front[..i + 1] == rules[..i + 1];
      SoFarSplits(passwd, front, i);
      FailsHere(passwd, front, i);
      StaysFailed(passwd, front, i + 1);
      Regrouped(rules, out, i, n);
    } else {
      SoFarAll(passwd, rules[..n]);
      assert out[i..] == [out[n]] && rules[i..] == [rules[n]];
    }
  }

  lemma {:induction false} StaysFailed(passwd: Passwd, rules: seq<Rule>, i: nat)
    requires i <= |rules| && ResolveRules(passwd, rules[..i]).Err?
    ensures ResolveRules(passwd, rules).Err?
  {
    if i == |rules| {
      assert rules[..i] == rules;
    } else {
      assert rules[..|rules| - 1][..i] == rules[..i];
      StaysFailed(passwd, rules[..|rules| - 1], i);
    }
  }

  /** Lowering any policy, compiled or not, fails exactly on a key that is no uid, and names the
      first. */
  lemma {:induction false} LoweringFails(default_: PolicyBatch, u: IndexMap)
    ensures UserEntries(default_, u).Ok? <==> forall k :: k in u.Keys() ==> UidNumeral(k)
    ensures UserEntries(default_, u).Err? ==>
              exists i: nat :: i < |u.Keys()| && !UidNumeral(u.Keys()[i])
                && (forall j :: 0 <= j < i ==> UidNumeral(u.Keys()[j]))
                && UserEntries(default_, u) == Err(ParseUid(u.Keys()[i]))
  {
    if u.Entry? {
      hide UidNumeral, UserBatch, ParseU32;
      LoweringFails(default_, u.front);
      ParseIff(u.key, 0);
      var n := |u.front.Keys()|;
      assert u.Keys()[n] == u.key && u.Keys()[..n] == u.front.Keys();
      if UserEntries(default_, u.front).Err? {
        var i: nat :| i < n && !UidNumeral(u.front.Keys()[i])
          && (forall j :: 0 <= j < i ==> UidNumeral(u.front.Keys()[j]))
          && UserEntries(default_, u.front) == Err(ParseUid(u.front.Keys()[i]));
        assert u.Keys()[i] == u.front.Keys()[i] && u.Keys()[i] in u.Keys();
        assert forall j :: 0 <= j < i ==> u.Keys()[j] == u.front.Keys()[j];
      } else {
        forall j | 0 <= j < n ensures UidNumeral(u.Keys()[j]) {
          assert u.Keys()[j] == u.front.Keys()[j] && u.front.Keys()[j] in u.front.Keys();
        }
        assert u.key in u.Keys();
      }
    }
  }

  /** What is wrong with an input that is not acceptable, in the order in which it is checked. */
  ghost predicate Explains(passwd: Passwd, files: seq<Config>, e: Error) {
    if !UsersConnectless(files) then
      exists i: nat :: FirstConnecting(NameOrder(files), name => RawUser(files, name), i)
                  && e == UserContextWithConnectRule(NameOrder(files)[i])
    else if !AllKnown(passwd, RawDefaults(files)) then
      exists i: nat :: FirstUnknownRule(passwd, RawDefaults(files), i) && IsConnect(RawDefaults(files)[i])
                  && e == Complaint(passwd, RawDefaults(files)[i].user)
    else
      exists i: nat :: FirstUnknownName(passwd, NameOrder(files), i) && e == Complaint(passwd, NameOrder(files)[i])
  }

  lemma SameTextKnown(passwd: Passwd, a: seq<Rule>, b: seq<Rule>, i: nat)
    requires Bare(a) == Bare(b) && i < |a|
    ensures i < |b| && RuleKnown(passwd, a[i]) == RuleKnown(passwd, b[i]) && IsConnect(a[i]) == IsConnect(b[i])
    ensures IsConnect(a[i]) ==> a[i].user == b[i].user
  {
    hide Known;
    assert |Bare(a)| == |a| && |Bare(b)| == |b| && Bare(a)[i] == Bare(b)[i];
  }

  /** The error of a failed compilation names the first offence, as the files are read. */
  lemma CompileErrors(passwd: Passwd, files: seq<Config>, e: Error)
    requires Compiled(passwd, files) == Err(e)
    ensures Explains(passwd, files, e)
  {
    var loaded := Loaded(files);
    CompilesIff(passwd, files);
    ValidatedIff(Users(loaded));
    LoadedConnectless(passwd, files, Users(loaded));
    RulesResolveIff(passwd, DefaultRules(loaded));
    LoadedContextConnectless(passwd, files, "");
    LoadingKeepsNameOrder(files);
    if Validated(loaded).Err? {
      RefusedContext(passwd, files, loaded);
    } else if ResolveRules(passwd, DefaultRules(loaded)).Err? {
      RefusedRule(passwd, files, loaded);
    } else {
      UsersResolveIff(passwd, Users(loaded));
      LoweringSucceeds(passwd, loaded);
      var i := NameRefused(passwd, Users(loaded));
      assert FirstUnknownName(passwd, NameOrder(files), i);
    }
  }

  lemma LoweringSucceeds(passwd: Passwd, loaded: Config)
    ensures Resolved(passwd, loaded).Ok? ==> Converted(Optimized(Prepared(Resolved(passwd, loaded).value))).Ok?
  {
    if Resolved(passwd, loaded).Ok? {
      var resolved := Resolved(passwd, loaded).value;
      PipelineUidKeys(passwd, loaded, resolved);
      BatchFound(Optimized(Prepared(resolved)), 0);
    }
  }

  lemma RefusedContext(passwd: Passwd, files: seq<Config>, loaded: Config)
    requires loaded == Loaded(files) && Validated(loaded).Err? && Users(loaded).Keys() == NameOrder(files)
    ensures exists i: nat :: FirstConnecting(NameOrder(files), name => RawUser(files, name), i)
                        && Validated(loaded) == Err(UserContextWithConnectRule(NameOrder(files)[i]))
  {
    var i := ContextRefused(Users(loaded));
    hide Connectless, Loaded, RawUser;
    forall j | 0 <= j <= i
      ensures Connectless(Users(loaded).Get(NameOrder(files)[j])) <==> Connectless(RawUser(files, NameOrder(files)[j]))
    {
      LoadedContextConnectless(passwd, files, NameOrder(files)[j]);
    }
    assert FirstConnecting(NameOrder(files), name => RawUser(files, name), i);
  }

  lemma RefusedRule(passwd: Passwd, files: seq<Config>, loaded: Config)
    requires loaded == Loaded(files) && ResolveRules(passwd, DefaultRules(loaded)).Err?
    ensures exists i: nat :: FirstUnknownRule(passwd, RawDefaults(files), i) && IsConnect(RawDefaults(files)[i])
              && ResolveRules(passwd, DefaultRules(loaded)) == Err(Complaint(passwd, RawDefaults(files)[i].user))
  {
    hide Known, Loaded, RawDefaults, Complaint, RuleKnown;
    var rules := DefaultRules(loaded);
    var i := RuleRefused(passwd, rules);
    LoadingKeepsText(files, "");
    forall j | 0 <= j <= i
      ensures j < |RawDefaults(files)| && RuleKnown(passwd, rules[j]) == RuleKnown(passwd, RawDefaults(files)[j])
    {
      SameTextKnown(passwd, rules, RawDefaults(files), j);
    }
    SameTextKnown(passwd, rules, RawDefaults(files), i);
    assert FirstUnknownRule(passwd, RawDefaults(files), i);
  }

  // --------------------------------------------------------------------------- distinct uids

  predicate DistinctUids(entries: seq<UidEntry>) {
    forall i, j :: 0 <= i < j < |entries| ==> entries[i].uid != entries[j].uid
  }

  lemma {:induction false} UserUidsDistinct(default_: PolicyBatch, u: IndexMap)
    requires UidKeys(u)
    ensures UserEntries(default_, u).Ok? && DistinctUids(UserEntries(default_, u).value)
  {
    if u.Entry? {
      UserUidsDistinct(default_, u.front);
      EntriesFind(default_, u.front, ParseU32(u.key).value);
    }
  }

  lemma {:induction false} OptimizedNonempty(threshold: u64, u: IndexMap, k: string)
    ensures OptimizedUsers(threshold, u).Has(k) <==> CleanedUser(threshold, u.Get(k)) != []
  {
    if u.Entry? {
      OptimizedNonempty(threshold, u.front, k);
      if u.key == k {
        AbsentGet(u.front, k);
      }
    }
  }

  /** The wildcard context survives the back end exactly when it has rules. */
  lemma WildcardSurvives(c: Config)
    requires NoConnects(Users(c))
    ensures Users(Optimized(Prepared(c))).Has(WILDCARD) <==> Users(c).Get(WILDCARD) != []
  {
    var p, rules := Prepared(c), Users(c).Get(WILDCARD);
    var t := Threshold(DefaultRules(p));
    PrepareMoves(c, WILDCARD);
    FilterNone(DefaultRules(c), MovesTo(WILDCARD));
    OptimizedNonempty(t, Users(p), WILDCARD);
    FilterAll(rules, Survives(if t > Threshold(rules) then t else Threshold(rules)));
    assert Users(p).Get(WILDCARD) == rules;
  }

  /** Every uid has one batch, except that a user context filed under the wildcard repeats the
      wildcard id; this happens exactly when that context has rules. */
  lemma UidsDistinctIff(passwd: Passwd, files: seq<Config>, policy: DbusPolicy)
    requires Compiled(passwd, files) == Ok(policy)
    ensures DistinctUids(policy.uidEntries) <==> OwnRules(passwd, files, DEFAULT_USER_ID) == []
  {
    var loaded := Loaded(files);
    var resolved := Resolved(passwd, loaded).value;
    var final := Optimized(Prepared(resolved));
    ValidatedNoConnects(Users(loaded));
    ResolvedNoConnects(passwd, Users(loaded), Users(resolved));
    WildcardSurvives(resolved);
    WildcardOwner(passwd, files, loaded, Users(resolved));
    PipelineUidKeys(passwd, loaded, resolved);
    var default_ := DefaultBatch(final);
    UserUidsDistinct(default_, Users(final));
    EntriesFind(default_, Users(final), DEFAULT_USER_ID);
    var users := UserEntries(default_, Users(final)).value;
    WildcardFirst(UidEntry(DEFAULT_USER_ID, default_), users, policy.uidEntries);
  }

  lemma OneUserRuleText(name: string, r: Rule, files: seq<Config>, k: string)
    requires files == [OneUserRule(name, r)]
    ensures RawDefaults(files) == [] && NameOrder(files) == [name]
    ensures RawUser(files, k) == if k == name then [r] else []
  {
    assert files[..0] == [];
    assert RawDefaults([]) == [] && RawUser([], k) == [];
    InsertGet(Empty, name, Context([r]), k);
    assert Users(files[0]).Get(k) == if k == name then [r] else [];
    assert RawUser(files, k) == RawUser([], k) + Users(files[0]).Get(k);
    OneName(name, r, files);
  }

  lemma OneName(name: string, r: Rule, files: seq<Config>)
    requires files == [OneUserRule(name, r)]
    ensures NameOrder(files) == [name]
  {
    assert files[..0] == [] && NameOrder([]) == [];
    NoKeys();
    InsertKeys(Empty, name, Context([r]));
    assert Users(files[0]).Keys() == [] + [name];
    assert [name][..0] == [] && MergeNames([], []) == [];
    assert MergeNames([], [name]) == [name];
  }

  /** One file with a single rule in a user context named "*" compiles to two wildcard entries. */
  lemma WildcardContextRepeatsUid(passwd: Passwd, r: Rule)
    requires !IsConnect(r)
    ensures var policy := Compiled(passwd, [OneUserRule("*", r)]);
            policy.Ok? && !DistinctUids(policy.value.uidEntries)
  {
    var files := [OneUserRule("*", r)];
    WildcardAcceptable(passwd, r, files);
    CompilesIff(passwd, files);
    hide *;
    UidsDistinctIff(passwd, files, Compiled(passwd, files).value);
  }

  lemma WildcardAcceptable(passwd: Passwd, r: Rule, files: seq<Config>)
    requires !IsConnect(r) && files == [OneUserRule("*", r)]
    ensures Acceptable(passwd, files) && OwnRules(passwd, files, DEFAULT_USER_ID) == [r]
  {
    forall name ensures Connectless(RawUser(files, name)) {
      OneUserRuleText("*", r, files, name);
    }
    OneUserRuleText("*", r, files, "*");
    hide OneUserRule, RawUser, RawDefaults, NameOrder;
    assert Denotes(passwd, "*", DEFAULT_USER_ID) && Known(passwd, "*");
    assert ["*"][|["*"]| - 1] == "*";
    assert Owner(passwd, ["*"], DEFAULT_USER_ID) == Some("*");
  }

  lemma WildcardOwner(passwd: Passwd, files: seq<Config>, loaded: Config, resolved: IndexMap)
    requires loaded == Loaded(files) && ResolveUsers(passwd, Users(loaded)) == Ok(resolved)
    ensures resolved.Get(WILDCARD) == [] <==> OwnRules(passwd, files, DEFAULT_USER_ID) == []
  {
    ResolvedOwner(passwd, Users(loaded), resolved, DEFAULT_USER_ID);
    LoadingKeepsNameOrder(files);
    var owner := Owner(passwd, NameOrder(files), DEFAULT_USER_ID);
    if owner.Some? {
      LoadingKeepsText(files, owner.value);
      assert |Bare(RawUser(files, owner.value))| == |RawUser(files, owner.value)|;
      assert |Bare(Users(loaded).Get(owner.value))| == |Users(loaded).Get(owner.value)|;
    }
  }

  lemma WildcardFirst(first: UidEntry, users: seq<UidEntry>, entries: seq<UidEntry>)
    requires entries == [first] + users && DistinctUids(users)
    ensures DistinctUids(entries) <==> EntryFor(users, first.uid).None?
  {
    if EntryFor(users, first.uid).Some? {
      var i :| 0 <= i < |users| && users[i] == UidEntry(first.uid, EntryFor(users, first.uid).value);
      assert entries[0].uid == entries[i + 1].uid;
    } else {
      forall i, j | 0 <= i < j < |entries| ensures entries[i].uid != entries[j].uid {
        assert entries[j] == users[j - 1];
        if i > 0 { assert entries[i] == users[i - 1]; }
      }
    }
  }
}
