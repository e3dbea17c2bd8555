/** The compiler's promise about connecting: the last loaded default-context connect rule that
    names a user, or everyone, decides. */
module WhippetConnect {
  import opened Wrappers
  import opened Decimal
  import opened PolicyModel
  import opened DbusModel
  import opened WhippetNames
  import opened WhippetLoad
  import opened WhippetPasses
  import opened WhippetLowering

  // -------------------------------------------------------------- the meaning of the sources

  /** A connect rule that names the uid, or every user. */
  ghost predicate Names(passwd: Passwd, r: Rule, uid: u32) {
    IsConnect(r) && (Denotes(passwd, r.user, uid) || Denotes(passwd, r.user, DEFAULT_USER_ID))
  }

  /** The last rule that names the uid. */
  ghost function LastNaming(passwd: Passwd, rules: seq<Rule>, uid: u32): (r: Option<Rule>)
    ensures r.Some? ==> IsConnect(r.value)
  {
    if rules == [] then None
    else if Names(passwd, rules[|rules| - 1], uid) then Some(rules[|rules| - 1])
    else LastNaming(passwd, rules[..|rules| - 1], uid)
  }

  /** Its verdict; refusal when there is none. */
  ghost function LastVerdict(passwd: Passwd, rules: seq<Rule>, uid: u32): bool {
    var r := LastNaming(passwd, rules, uid);
    r.Some? && r.value.allow
  }

  /** Priorities play no part in that meaning. */
  lemma {:induction false} LastNamingBare(passwd: Passwd, rules: seq<Rule>, uid: u32)
    ensures LastNaming(passwd, Bare(rules), uid) ==
            match LastNaming(passwd, rules, uid) { case Some(r) => Some(SetPriority(r, 0)) case None => None }
  {
    if rules == [] {
      assert Bare(rules) == [];
    } else {
      hide Bare, Denotes;
      LastNamingBare(passwd, rules[..|rules| - 1], uid);
      BareLast(rules);
    }
  }

  // ------------------------------------------------------------------------------ resolving

  lemma {:induction false} ResolvedAt(passwd: Passwd, rules: seq<Rule>, out: seq<Rule>)
    requires ResolveRules(passwd, rules) == Ok(out)
    ensures |out| == |rules|
    ensures forall i :: 0 <= i < |rules| ==> ResolveRule(passwd, rules[i]) == Ok(out[i])
  {
    if rules != [] {
      var front := ResolveRules(passwd, rules[..|rules| - 1]).value;
      ResolvedAt(passwd, rules[..|rules| - 1], front);
    }
  }

  /** Resolved connect rules that speak about a uid. */
  ghost function SpeakingOf(out: seq<Rule>, uid: u32): set<Rule> {
    set r | r in out && IsConnect(r) && (r.user == Show(uid) || r.user == WILDCARD)
  }

  lemma ResolvedNames(passwd: Passwd, r: Rule, out: Rule, uid: u32)
    requires ResolveRule(passwd, r) == Ok(out)
    ensures IsConnect(out) && (out.user == Show(uid) || out.user == WILDCARD) <==> Names(passwd, r, uid)
    ensures IsConnect(r) ==> IsConnect(out) && out.allow == r.allow
    ensures out.priority == r.priority
  {
    hide Denotes, Resolve;
    if IsConnect(r) {
      var owner := Resolve(passwd, r.user).value;
      ResolveIff(passwd, r.user, uid);
      ResolveIff(passwd, r.user, DEFAULT_USER_ID);
      ShowInjective(owner, uid);
      ShowInjective(owner, DEFAULT_USER_ID);
    }
  }

  lemma SpeakingSnoc(front: seq<Rule>, last: Rule, out: seq<Rule>, uid: u32)
    requires out == front + [last]
    ensures SpeakingOf(out, uid) == SpeakingOf(front, uid) + SpeakingOf([last], uid)
  {
    forall r ensures r in out <==> r in front || r in [last] {
    }
  }

  lemma LaterIsHigher(passwd: Passwd, rules: seq<Rule>, out: seq<Rule>, uid: u32)
    requires ResolveRules(passwd, rules) == Ok(out)
    requires Increasing(rules) && rules != []
    ensures |out| == |rules|
    ensures forall r :: r in out[..|rules| - 1] ==> r.priority < out[|rules| - 1].priority
  {
    var n := |rules| - 1;
    ResolvedAt(passwd, rules, out);
    ResolvedNames(passwd, rules[n], out[n], uid);
    forall r | r in out[..n] ensures r.priority < out[n].priority {
      var i :| 0 <= i < n && out[..n][i] == r;
      ResolvedNames(passwd, rules[i], out[i], uid);
    }
  }

  /** With priorities rising in load order, the highest-priority rule is the last loaded one. */
  lemma {:induction false} HighestIsLast(passwd: Passwd, rules: seq<Rule>, out: seq<Rule>, uid: u32, verdict: bool,
                                         priority: u64)
    requires ResolveRules(passwd, rules) == Ok(out)
    requires Increasing(rules)
    requires SpeakingOf(out, uid) != {} ==> WinsAt(SpeakingOf(out, uid), verdict, priority)
    ensures SpeakingOf(out, uid) == {} <==> LastNaming(passwd, rules, uid).None?
    ensures match LastNaming(passwd, rules, uid) {
        case Some(r) => r.allow == verdict && r.priority == priority
        case None => true
      }
  {
    if rules != [] {
      hide Names, ResolveRules, ResolveRule;
      var n := |rules| - 1;
      ResolvedAt(passwd, rules, out);
      ResolvedFront(passwd, rules, out);
      var front := out[..n];
      assert out == front + [out[n]];
      ResolvedNames(passwd, rules[n], out[n], uid);
      SpeakingSnoc(front, out[n], out, uid);
      if Names(passwd, rules[n], uid) {
        LaterIsHigher(passwd, rules, out, uid);
        assert out[n] in SpeakingOf(out, uid);
      } else {
        assert SpeakingOf([out[n]], uid) == {};
        HighestIsLast(passwd, rules[..n], front, uid, verdict, priority);
      }
    }
  }

  lemma ResolvedFront(passwd: Passwd, rules: seq<Rule>, out: seq<Rule>)
    requires ResolveRules(passwd, rules) == Ok(out) && rules != []
    ensures |out| == |rules| && ResolveRules(passwd, rules[..|rules| - 1]) == Ok(out[..|rules| - 1])
  {
    ResolvedAt(passwd, rules, out);
  }

  // ------------------------------------------------------------- user contexts hold no connects

  ghost predicate NoConnects(u: IndexMap) {
    forall k, r :: r in u.Get(k) ==> !IsConnect(r)
  }

  lemma {:induction false} ValidatedNoConnects(u: IndexMap)
    requires ValidUsers(u).Ok?
    ensures NoConnects(u)
  {
    if u.Entry? {
      ValidatedNoConnects(u.front);
    }
  }

  lemma {:induction false} ResolvedNoConnects(passwd: Passwd, u: IndexMap, out: IndexMap)
    requires ResolveUsers(passwd, u) == Ok(out) && NoConnects(u)
    ensures NoConnects(out)
  {
    if u.Entry? {
      var front := ResolveUsers(passwd, u.front).value;
      FrontNoConnects(u);
      ResolvedNoConnects(passwd, u.front, front);
      forall k, r | r in out.Get(k) ensures !IsConnect(r) {
        InsertGet(front, Show(Resolve(passwd, u.key).value), u.context, k);
        assert u.Get(u.key) == u.context.rules;
      }
    }
  }

  lemma FrontNoConnects(u: IndexMap)
    requires u.Entry? && NoConnects(u)
    ensures NoConnects(u.front)
  {
    forall k, r | r in u.front.Get(k) ensures !IsConnect(r) {
      if k == u.key {
        AbsentGet(u.front, k);
      } else {
        assert r in u.Get(k);
      }
    }
  }

  // -------------------------------------------------------------------------- the back end

  /** What the lowered policy says about connecting. */
  ghost predicate ConnectsWith(policy: Config, uid: u32, rules: set<Rule>, fallback: u64)
    requires Converted(policy).Ok? && EffectiveBatch(Converted(policy).value, uid).Some?
  {
    var batch := EffectiveBatch(Converted(policy).value, uid).value;
    if rules == {} then !batch.connectVerdict && batch.connectPriority == fallback
    else WinsAt(rules, batch.connectVerdict, batch.connectPriority)
  }

  /** Optimizing and lowering a prepared policy gives each uid the verdict and the priority of the
      highest connect rule that speaks about it. */
  lemma LoweredVerdictWins(c: Config, uid: u32)
    requires UidKeys(Users(Optimized(c)))
    requires forall r :: r in DefaultRules(c) && IsConnect(r) ==> r.user == WILDCARD
    requires PositiveConnects(DefaultRules(c)) && PositiveConnects(Users(c).Get(Show(uid)))
    requires uid == DEFAULT_USER_ID ==> forall r :: r in Users(c).Get(Show(uid)) ==> !IsConnect(r)
    ensures Converted(Optimized(c)).Ok? && EffectiveBatch(Converted(Optimized(c)).value, uid).Some?
    ensures ConnectsWith(Optimized(c), uid, Speaking(c, Show(uid)), if c.default.Some? then 0 else 1)
  {
    var o, k := Optimized(c), Show(uid);
    var defaults, own := DefaultRules(o), Users(o).Get(k);
    BatchFound(o, uid);
    DefaultConnect(o);
    UserConnect(DefaultBatch(o), own);
    if !Users(o).Has(k) {
      AbsentGet(Users(o), k);
    }
    if uid == DEFAULT_USER_ID {
      WildcardUnspoken(c, k);
    }
    hide UserBatch, DefaultBatch, Speaking, Converted;
    var batch := EffectiveBatch(Converted(o).value, uid).value;
    if HasConnectRule(own) {
      var r :| r in own && IsConnect(r) && r.allow == batch.connectVerdict && r.priority == batch.connectPriority;
      SurvivorWins(c, k, r);
    } else if HasConnectRule(defaults) {
      var r :| r in defaults && IsConnect(r) && r.allow == batch.connectVerdict && r.priority == batch.connectPriority;
      SurvivorWins(c, k, r);
    } else {
      NoSurvivorNoRule(c, k);
    }
  }

  lemma WildcardUnspoken(c: Config, k: string)
    requires forall r :: r in Users(c).Get(k) ==> !IsConnect(r)
    ensures !HasConnectRule(Users(Optimized(c)).Get(k))
  {
    var t, rules := Threshold(DefaultRules(c)), Users(c).Get(k);
    OptimizedGet(t, Users(c), k);
    FilterMembers(rules, Survives(if t > Threshold(rules) then t else Threshold(rules)));
  }

  lemma PreparedShape(c: Config, uid: u32)
    requires NoConnects(Users(c)) && PositiveConnects(DefaultRules(c))
    ensures var p := Prepared(c);
            && (forall r :: r in DefaultRules(p) && IsConnect(r) ==> r.user == WILDCARD)
            && PositiveConnects(DefaultRules(p)) && PositiveConnects(Users(p).Get(Show(uid)))
            && (uid == DEFAULT_USER_ID ==> forall r :: r in Users(p).Get(Show(uid)) ==> !IsConnect(r))
            && Speaking(p, Show(uid)) == SpeakingOf(DefaultRules(c), uid)
  {
    var k := Show(uid);
    PrepareMoves(c, k);
    FilterMembers(DefaultRules(c), Stays);
    FilterMembers(DefaultRules(c), MovesTo(k));
    ReverseMembers(Filter(DefaultRules(c), MovesTo(k)));
    PrepareKeepsSpeaking(c, k);
    assert (set r | r in Users(c).Get(k) && IsConnect(r)) == {};
  }

  /** What every uid finds, in terms of the rules as they were loaded. */
  ghost predicate FindsLast(passwd: Passwd, rules: seq<Rule>, uid: u32, batch: PolicyBatch, fallback: u64) {
    match LastNaming(passwd, rules, uid)
    case Some(r) => batch.connectVerdict == r.allow && batch.connectPriority == r.priority
    case None => !batch.connectVerdict && batch.connectPriority == fallback
  }

  /** The fields found are those of the last loaded rule naming the uid or everyone, with the
      priority it was given on loading. */
  lemma ConnectFields(passwd: Passwd, files: seq<Config>, uid: u32, policy: DbusPolicy)
    requires DefaultsFit(files)
    requires Compiled(passwd, files) == Ok(policy)
    ensures EffectiveBatch(policy, uid).Some?
    ensures FindsLast(passwd, DefaultRules(Loaded(files)), uid, EffectiveBatch(policy, uid).value,
                      if files == [] then 1 else 0)
  {
    var loaded := Loaded(files);
    var resolved := Resolved(passwd, loaded).value;
    var rules, out := DefaultRules(loaded), ResolveRules(passwd, DefaultRules(loaded)).value;
    DefaultsRank(files);
    ValidatedNoConnects(Users(loaded));
    ResolvedNoConnects(passwd, Users(loaded), Users(resolved));
    ResolvedPositive(passwd, rules, out);
    assert DefaultRules(resolved) == out;
    PreparedShape(resolved, uid);
    PipelineUidKeys(passwd, loaded, resolved);
    assert Prepared(resolved).default.Some? <==> files != [];
    LoweredVerdictWins(Prepared(resolved), uid);
    var batch := EffectiveBatch(policy, uid).value;
    HighestIsLast(passwd, rules, out, uid, batch.connectVerdict, batch.connectPriority);
  }

  /** End to end, for every run of files, passwd database and uid: the connect verdict the broker
      finds is that of the last loaded default-context rule naming the uid or everyone. */
  lemma ConnectMeaning(passwd: Passwd, files: seq<Config>, uid: u32, policy: DbusPolicy)
    requires DefaultsFit(files)
    requires Compiled(passwd, files) == Ok(policy)
    ensures EffectiveBatch(policy, uid).Some?
    ensures EffectiveBatch(policy, uid).value.connectVerdict == LastVerdict(passwd, RawDefaults(files), uid)
  {
    hide Compiled, EffectiveBatch, Loaded, RawDefaults, LastNaming, Bare;
    ConnectFields(passwd, files, uid, policy);
    LoadingKeepsText(files, "");
    LastNamingBare(passwd, DefaultRules(Loaded(files)), uid);
    LastNamingBare(passwd, RawDefaults(files), uid);
  }

  lemma ResolvedPositive(passwd: Passwd, rules: seq<Rule>, out: seq<Rule>)
    requires ResolveRules(passwd, rules) == Ok(out)
    requires forall r :: r in rules ==> r.priority > 0
    ensures PositiveConnects(out)
  {
    ResolvedAt(passwd, rules, out);
    forall r | r in out ensures r.priority > 0 {
      var i :| 0 <= i < |out| && out[i] == r;
      ResolvedNames(passwd, rules[i], out[i], 0);
      assert rules[i] in rules;
    }
  }
}
