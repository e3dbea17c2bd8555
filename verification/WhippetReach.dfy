/** How many rules the two end-to-end theorems carry: for connecting, exactly as many as fit before
    a default rule's priority wraps; for other requests, exactly as many as keep every user rule
    above every default rule. */
module WhippetReach {
  import opened Wrappers
  import opened Decimal
  import opened PolicyModel
  import opened DbusModel
  import opened WhippetNames
  import opened WhippetLoad
  import WhippetPasses
  import opened WhippetLowering
  import opened WhippetConnect
  import opened WhippetRecords
  import opened WhippetAccess
  import opened WhippetAcceptance

  /** Every uid finds the verdict of the last loaded rule naming it. */
  ghost predicate ConnectsRight(passwd: Passwd, files: seq<Config>) {
    Compiled(passwd, files).Ok? ==>
      forall uid: u32 ::
        && EffectiveBatch(Compiled(passwd, files).value, uid).Some?
        && EffectiveBatch(Compiled(passwd, files).value, uid).value.connectVerdict ==
           LastVerdict(passwd, RawDefaults(files), uid)
  }

  // ------------------------------------------------------------------ a run in which one wraps

  /** The position in a first file at which a default rule's priority wraps to 0. */
  const WRAPPING: nat := U64_MODULUS - DEFAULT_BASE - FIRST_PRIORITY

  const ALLOW_ALL: Rule := ConnectUser(true, "*", 0)
  const REFUSE_ALL: Rule := ConnectUser(false, "*", 0)

  function WrappingRule(i: nat): Rule {
    if i == 0 then ALLOW_ALL else if i == WRAPPING then REFUSE_ALL else Own("a", true, 0)
  }

  /** Everyone is allowed first and refused where the priority wraps. */
  function WrappingRules(n: nat): seq<Rule> { seq(n, i requires 0 <= i => WrappingRule(i)) }

  function WrappingFile(n: nat): Config { Config(Some(Context(WrappingRules(n))), None) }

  lemma WrappingLoaded(n: nat)
    ensures RawDefaults([WrappingFile(n)]) == WrappingRules(n)
    ensures TotalRules([WrappingFile(n)]) == n
    ensures DefaultRules(Loaded([WrappingFile(n)])) == Stamp(WrappingRules(n), DEFAULT_BASE, FIRST_PRIORITY)
  {
    var file := WrappingFile(n);
    assert [file][..0] == [];
    assert Loaded([]) == Config(None, None) && TotalRules([]) == 0 && RawDefaults([]) == [];
    assert RuleCount(Empty) == 0;
    MergedDefaults(Loaded([]), file, FIRST_PRIORITY, Loaded([file]));
  }

  lemma NoUserText(n: nat, files: seq<Config>)
    requires files == [WrappingFile(n)]
    ensures NameOrder(files) == [] && forall name :: RawUser(files, name) == []
  {
    assert files[..0] == [] && NameOrder([]) == [];
    NoKeys();
    forall name ensures RawUser(files, name) == [] {
      assert RawUser([], name) == [] && Users(files[0]).Get(name) == [];
    }
  }

  lemma EveryoneKnown(passwd: Passwd, n: nat)
    ensures AllKnown(passwd, WrappingRules(n))
  {
    assert Denotes(passwd, "*", DEFAULT_USER_ID) && Known(passwd, "*");
    forall r | r in WrappingRules(n) && IsConnect(r) ensures r.user == "*" {
      var i :| 0 <= i < n && WrappingRules(n)[i] == r;
    }
  }

  lemma WrappingAccepted(passwd: Passwd, n: nat)
    ensures Compiled(passwd, [WrappingFile(n)]).Ok?
  {
    var files := [WrappingFile(n)];
    WrappingLoaded(n);
    NoUserText(n, files);
    EveryoneKnown(passwd, n);
    hide WrappingFile, RawDefaults, RawUser, NameOrder, AllKnown, Known, Compiled;
    assert Acceptable(passwd, files);
    CompilesIff(passwd, files);
  }

  /** The last rule that names a uid decides. */
  lemma {:induction false} LastNamed(passwd: Passwd, rules: seq<Rule>, uid: u32, i: nat)
    requires i < |rules| && Names(passwd, rules[i], uid)
    requires forall j :: i < j < |rules| ==> !Names(passwd, rules[j], uid)
    ensures LastNaming(passwd, rules, uid) == Some(rules[i])
  {
    if i < |rules| - 1 {
      LastNamed(passwd, rules[..|rules| - 1], uid, i);
    }
  }

  lemma WrappingRefused(passwd: Passwd, n: nat, uid: u32)
    requires n > WRAPPING
    ensures !LastVerdict(passwd, WrappingRules(n), uid)
  {
    LastNamed(passwd, WrappingRules(n), uid, WRAPPING);
  }

  /** After resolving, the only connect rules are the first, ranked high, and one ranked 0. */
  ghost predicate FirstRanksHigh(rules: seq<Rule>) {
    && rules != []
    && rules[0] == ConnectUser(true, WILDCARD, DEFAULT_BASE + FIRST_PRIORITY)
    && forall i :: 0 < i < |rules| && IsConnect(rules[i]) ==> rules[i].user == WILDCARD && rules[i].priority == 0
  }

  /** Each rule of the file, stamped and resolved. */
  lemma WrappingAt(passwd: Passwd, n: nat, i: nat, rule: Rule, out: Rule)
    requires i < n && rule == SetPriority(WrappingRule(i), Priority(DEFAULT_BASE, FIRST_PRIORITY + i))
    requires ResolveRule(passwd, rule) == Ok(out)
    ensures IsConnect(out) <==> i == 0 || i == WRAPPING
    ensures IsConnect(out) ==> out.user == WILDCARD && out.allow == (i == 0)
    ensures out.priority == Priority(DEFAULT_BASE, FIRST_PRIORITY + i)
  {
  }

  lemma WrapsToZero()
    ensures Priority(DEFAULT_BASE, FIRST_PRIORITY + WRAPPING) == 0
    ensures Priority(DEFAULT_BASE, FIRST_PRIORITY) == DEFAULT_BASE + FIRST_PRIORITY
  {
    assert Wrap(U64_MODULUS) == 0;
  }

  lemma WrappingResolved(passwd: Passwd, n: nat, rules: seq<Rule>, out: seq<Rule>)
    requires n > WRAPPING
    requires rules == Stamp(WrappingRules(n), DEFAULT_BASE, FIRST_PRIORITY)
    requires ResolveRules(passwd, rules) == Ok(out)
    ensures FirstRanksHigh(out)
  {
    hide Stamp, ResolveRules, ResolveRule, Priority, WrappingRule;
    ResolvedAt(passwd, rules, out);
    WrapsToZero();
    forall i | 0 <= i < n
      ensures IsConnect(out[i]) <==> i == 0 || i == WRAPPING
      ensures IsConnect(out[i]) ==> out[i].user == WILDCARD && out[i].allow == (i == 0)
      ensures out[i].priority == Priority(DEFAULT_BASE, FIRST_PRIORITY + i)
    {
      StampAt(WrappingRules(n), DEFAULT_BASE, FIRST_PRIORITY, i);
      WrappingAt(passwd, n, i, rules[i], out[i]);
    }
    assert out[0].priority == Priority(DEFAULT_BASE, FIRST_PRIORITY + 0);
  }

  lemma FirstIsThreshold(rules: seq<Rule>)
    requires FirstRanksHigh(rules)
    ensures Threshold(rules) == DEFAULT_BASE + FIRST_PRIORITY
  {
    assert rules[0] in rules;
    var r :| r in rules && IsConnect(r) && r.priority == Threshold(rules);
    var i :| 0 <= i < |rules| && rules[i] == r;
  }

  lemma NothingMoves(rules: seq<Rule>)
    requires FirstRanksHigh(rules)
    ensures Filter(rules, Movable) == []
  {
    forall r | r in rules ensures !Movable(r) {
      var i :| 0 <= i < |rules| && rules[i] == r;
    }
    WhippetPasses.FilterNone(rules, Movable);
  }

  /** Optimizing then keeps the first rule and lowering takes its verdict. */
  lemma FirstDecides(c: Config)
    requires c.default.Some? && FirstRanksHigh(DefaultRules(c))
    ensures DefaultBatch(Optimized(Prepared(c))).connectVerdict
  {
    NothingMoves(DefaultRules(c));
    FirstIsThreshold(DefaultRules(c));
    FirstIsKept(DefaultRules(c), DEFAULT_BASE + FIRST_PRIORITY);
  }

  lemma FirstIsKept(rules: seq<Rule>, t: u64)
    requires FirstRanksHigh(rules) && t == DEFAULT_BASE + FIRST_PRIORITY
    ensures BatchOf(Filter(rules, Survives(t))).connectVerdict
  {
    hide BatchOf, Filter;
    var kept := Filter(rules, Survives(t));
    FilterMembers(rules, Survives(t));
    assert rules[0] in rules && rules[0] in kept;
    BatchShape(kept, OwnKind);
    var r :| r in kept && IsConnect(r) && r.allow == BatchOf(kept).connectVerdict;
    var i :| 0 <= i < |rules| && rules[i] == r;
  }

  lemma WrappingFails(passwd: Passwd, n: nat)
    requires n > WRAPPING
    ensures !ConnectsRight(passwd, [WrappingFile(n)])
  {
    var files := [WrappingFile(n)];
    var loaded := Loaded(files);
    WrappingLoaded(n);
    WrappingAccepted(passwd, n);
    WrappingRefused(passwd, n, DEFAULT_USER_ID);
    var resolved := Resolved(passwd, loaded).value;
    WrappingResolved(passwd, n, DefaultRules(loaded), ResolveRules(passwd, DefaultRules(loaded)).value);
    FirstDecides(resolved);
    PipelineUidKeys(passwd, loaded, resolved);
    BatchFound(Optimized(Prepared(resolved)), DEFAULT_USER_ID);
  }

  lemma FittingRight(passwd: Passwd, files: seq<Config>)
    requires DefaultsFit(files)
    ensures ConnectsRight(passwd, files)
  {
    hide Compiled, LastVerdict, RawDefaults, EffectiveBatch, DefaultsFit;
    if Compiled(passwd, files).Ok? {
      var policy := Compiled(passwd, files).value;
      forall uid: u32
        ensures EffectiveBatch(policy, uid).Some?
        ensures EffectiveBatch(policy, uid).value.connectVerdict == LastVerdict(passwd, RawDefaults(files), uid)
      {
        ConnectMeaning(passwd, files, uid, policy);
      }
    }
  }

  /** Every load run of n rules gives every uid the verdict of the last rule naming it if and only
      if n default rules fit below the wrap. */
  lemma ConnectReach(n: nat)
    ensures (forall passwd: Passwd, files :: TotalRules(files) == n ==> ConnectsRight(passwd, files))
            <==> DEFAULT_BASE + FIRST_PRIORITY + n <= U64_MODULUS
  {
    hide ConnectsRight, TotalRules, WrappingFile;
    if DEFAULT_BASE + FIRST_PRIORITY + n <= U64_MODULUS {
      forall passwd: Passwd, files | TotalRules(files) == n
        ensures ConnectsRight(passwd, files)
      {
        FittingRight(passwd, files);
      }
    } else {
      var passwd: Passwd := _ => Missing;
      WrappingLoaded(n);
      WrappingFails(passwd, n);
    }
  }

  // --------------------------------------------------------- own, send and receive requests

  /** Every record that may decide a request, whichever of equal rank the broker picks, says what
      the last loaded rule reaching it says, and there is one exactly when there is such a rule. */
  ghost predicate AccessesRight(passwd: Passwd, files: seq<Config>) {
    Compiled(passwd, files).Ok? ==>
      forall uid: u32, q: Request :: Right(Compiled(passwd, files).value, uid, q, Access(passwd, files, uid, q))
  }

  lemma BoundedRight(passwd: Passwd, files: seq<Config>)
    requires Loadable(files)
    ensures AccessesRight(passwd, files)
  {
    hide Compiled, Access, Right, Loadable;
    if Compiled(passwd, files).Ok? {
      forall uid: u32, q: Request
        ensures Right(Compiled(passwd, files).value, uid, q, Access(passwd, files, uid, q))
      {
        AccessMeaning(passwd, files, uid, Compiled(passwd, files).value, q);
      }
    }
  }

  const REFUSED: Rule := Own("a", false, 0)
  const ALLOWED: Rule := Own("a", true, 0)
  const ASKED: Request := OwnName("a")

  /** Uid 0 is refused a name in its own context; enough default rules allow it. */
  lemma LateText(n: nat, files: seq<Config>)
    requires files == LateDefaults(REFUSED, ALLOWED, n)
    ensures RawDefaults(files) == seq(n, _ => ALLOWED) && NameOrder(files) == ["0"]
    ensures forall name :: RawUser(files, name) == if name == "0" then [REFUSED] else []
  {
    var first, second := files[0], files[1];
    assert files[..1] == [first];
    OneUserRuleText("0", REFUSED, [first], "0");
    NoKeys();
    assert MergeNames(["0"], []) == ["0"];
    forall name ensures RawUser(files, name) == if name == "0" then [REFUSED] else [] {
      OneUserRuleText("0", REFUSED, [first], name);
      assert Users(second).Get(name) == [];
    }
  }

  lemma LateAccepted(passwd: Passwd, n: nat, files: seq<Config>)
    requires files == LateDefaults(REFUSED, ALLOWED, n)
    ensures Compiled(passwd, files).Ok?
    ensures Owner(passwd, NameOrder(files), 0) == Some("0")
    ensures Access(passwd, files, 0, ASKED) == Some(false)
  {
    LateText(n, files);
    ZeroOwned(passwd);
    AnsweredNo();
    hide LateDefaults, RawDefaults, RawUser, NameOrder, Owner, Compiled, LastReaching, Resolve;
    assert AllKnown(passwd, RawDefaults(files));
    forall name ensures Connectless(RawUser(files, name)) {
      assert RawUser(files, name) == if name == "0" then [REFUSED] else [];
    }
    assert Acceptable(passwd, files);
    CompilesIff(passwd, files);
  }

  lemma ZeroOwned(passwd: Passwd)
    ensures Known(passwd, "0") && Owner(passwd, ["0"], 0) == Some("0")
  {
    ZeroParses();
    ResolveIff(passwd, "0", 0);
    assert ["0"][|["0"]| - 1] == "0";
  }

  lemma AnsweredNo()
    ensures LastReaching([REFUSED], ASKED) == Some(false)
  {
  }

  lemma ZeroParses()
    ensures ParseU32("0") == Some(0)
  {
    ShowParses(0);
    assert Show(0) == "0";
  }

  /** A default record as high as the only record of the own context may decide. */
  lemma LateDecides(passwd: Passwd, n: nat, files: seq<Config>)
    requires n >= 2 * PRIORITY_BASE && files == LateDefaults(REFUSED, ALLOWED, n)
    ensures !AccessesRight(passwd, files)
  {
    hide Compiled, Access, LateDefaults, AccessesRight, EffectiveBatch, NameOrder, Owner, Loaded;
    LateAccepted(passwd, n, files);
    var policy, loaded := Compiled(passwd, files).value, Loaded(files);
    EffectiveRecords(passwd, files, 0, policy, OwnKind);
    LateDefaultsLoaded(REFUSED, ALLOWED, n);
    LateDefaultCatchesUp(REFUSED, ALLOWED, n);
    var own, low := RecordsOf(OwnKind, Users(loaded).Get("0")), RecordsOf(OwnKind, DefaultRules(loaded));
    OneRecord(own, Priority(USER_BASE, FIRST_PRIORITY));
    LateRecords(loaded, n, low);
    var r := TiedDecides(own, low, Priority(USER_BASE, FIRST_PRIORITY));
    WrongDecides(passwd, files, policy, own + low, r);
  }

  lemma OneRecord(own: seq<Record>, priority: u64)
    requires own == RecordsOf(OwnKind, [SetPriority(REFUSED, priority)])
    ensures own == [OwnRecord(false, priority, false, "a")]
  {
    assert [SetPriority(REFUSED, priority)][..0] == [];
    assert RecordsOf(OwnKind, []) == [];
  }

  lemma LateRecords(loaded: Config, n: nat, low: seq<Record>)
    requires n >= 2 * PRIORITY_BASE
    requires loaded == Loaded(LateDefaults(REFUSED, ALLOWED, n)) && low == RecordsOf(OwnKind, DefaultRules(loaded))
    ensures OwnRecord(true, Priority(USER_BASE, FIRST_PRIORITY), false, "a") in low
    ensures forall r :: r in low ==> r == OwnRecord(true, r.priority, false, "a")
  {
    hide Loaded, LateDefaults, RecordsOf, Priority;
    var rules := DefaultRules(loaded);
    LateDefaultsLoaded(REFUSED, ALLOWED, n);
    LateDefaultCatchesUp(REFUSED, ALLOWED, n);
    assert rules[2 * PRIORITY_BASE - 1] in rules;
    RecordsOfEqual(rules, n);
  }

  lemma RecordsOfEqual(rules: seq<Rule>, n: nat)
    requires rules == Stamp(seq(n, _ => ALLOWED), DEFAULT_BASE, FIRST_PRIORITY + 1)
    ensures forall r :: r in RecordsOf(OwnKind, rules) <==>
              exists q :: q in rules && r == OwnRecord(true, q.priority, false, "a")
  {
    forall i | 0 <= i < n ensures rules[i] == Own("a", true, rules[i].priority) {
      StampAt(seq(n, _ => ALLOWED), DEFAULT_BASE, FIRST_PRIORITY + 1, i);
    }
    RecordsOfOwn(rules);
  }

  lemma {:induction false} RecordsOfOwn(rules: seq<Rule>)
    requires forall i :: 0 <= i < |rules| ==> rules[i] == Own("a", true, rules[i].priority)
    ensures forall r :: r in RecordsOf(OwnKind, rules) <==>
              exists q :: q in rules && r == OwnRecord(true, q.priority, false, "a")
  {
    if rules != [] {
      var front, last := rules[..|rules| - 1], rules[|rules| - 1];
      RecordsOfOwn(front);
      assert rules == front + [last];
      assert ToRecord(OwnKind, last) == Ok(OwnRecord(true, last.priority, false, "a"));
    }
  }

  /** The highest default record is at least as high as the own one. */
  lemma TiedDecides(own: seq<Record>, low: seq<Record>, priority: u64) returns (r: Record)
    requires own == [OwnRecord(false, priority, false, "a")]
    requires OwnRecord(true, priority, false, "a") in low
    requires forall q :: q in low ==> q == OwnRecord(true, q.priority, false, "a")
    ensures r.verdict && MayDecide(own + low, ASKED, r)
  {
    var best := Decide(low, Reaching(ASKED));
    assert RecordReaches(Unranked(OwnRecord(true, priority, false, "a")), ASKED);
    r := best.value;
    forall q | q in own + low && RecordReaches(Unranked(q), ASKED) ensures q.priority <= r.priority {
      if q in low {
        assert Reaching(ASKED)(Unranked(q));
      }
    }
  }

  lemma WrongDecides(passwd: Passwd, files: seq<Config>, policy: DbusPolicy, records: seq<Record>, r: Record)
    requires Compiled(passwd, files) == Ok(policy) && Access(passwd, files, 0, ASKED) == Some(false)
    requires EffectiveBatch(policy, 0).Some? && EffectiveBatch(policy, 0).value.Records(OwnKind) == records
    requires r.verdict && MayDecide(records, ASKED, r)
    ensures !AccessesRight(passwd, files)
  {
    hide Compiled, Access, MayDecide, EffectiveBatch;
    assert ASKED.Kind() == OwnKind;
    assert !Right(policy, 0, ASKED, Some(false));
  }

  /** Every load run of n rules gives every request the answer of the last rule reaching it if and
      only if n is at most twice the base. */
  lemma AccessReach(n: nat)
    ensures (forall passwd: Passwd, files :: TotalRules(files) == n ==> AccessesRight(passwd, files))
            <==> n <= 2 * PRIORITY_BASE
  {
    hide AccessesRight, TotalRules, LateDefaults;
    if n <= 2 * PRIORITY_BASE {
      forall passwd: Passwd, files | TotalRules(files) == n
        ensures AccessesRight(passwd, files)
      {
        BoundedRight(passwd, files);
      }
    } else {
      var passwd: Passwd := _ => Missing;
      LateDefaultsLoaded(REFUSED, ALLOWED, n - 1);
      LateDecides(passwd, n - 1, LateDefaults(REFUSED, ALLOWED, n - 1));
    }
  }
}
