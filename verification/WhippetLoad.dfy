/** What loading a run of files gives each rule: the text the files hold, in load order, and a
    priority that ranks rules by load order with user contexts above the default context. */
module WhippetLoad {
  import opened Wrappers
  import opened PolicyModel

  // ------------------------------------------------- the files themselves, without priorities

  /** Rules without the priorities that loading adds. */
  function Bare(rules: seq<Rule>): seq<Rule> {
    seq(|rules|, i requires 0 <= i < |rules| => SetPriority(rules[i], 0))
  }

  /** Every default-context rule in load order. */
  function RawDefaults(files: seq<Config>): seq<Rule> {
    if files == [] then [] else RawDefaults(files[..|files| - 1]) + DefaultRules(files[|files| - 1])
  }

  /** Every rule of one named user context in load order. */
  function RawUser(files: seq<Config>, name: string): seq<Rule> {
    if files == [] then [] else RawUser(files[..|files| - 1], name) + Users(files[|files| - 1]).Get(name)
  }

  function MergeNames(names: seq<string>, more: seq<string>): seq<string> {
    if more == [] then names
    else
      var front := MergeNames(names, more[..|more| - 1]);
      if more[|more| - 1] in front then front else front + [more[|more| - 1]]
  }

  /** The user names of all files in order of first appearance. */
  function NameOrder(files: seq<Config>): seq<string> {
    if files == [] then [] else MergeNames(NameOrder(files[..|files| - 1]), Users(files[|files| - 1]).Keys())
  }

  lemma BareLast(rules: seq<Rule>)
    requires rules != []
    ensures |Bare(rules)| == |rules| && Bare(rules)[..|rules| - 1] == Bare(rules[..|rules| - 1])
    ensures Bare(rules)[|rules| - 1] == SetPriority(rules[|rules| - 1], 0)
  {
  }

  lemma BareConcat(a: seq<Rule>, b: seq<Rule>)
    ensures Bare(a + b) == Bare(a) + Bare(b)
  {
  }

  lemma {:induction false} StampBare(rules: seq<Rule>, base: nat, counter: nat)
    ensures Bare(Stamp(rules, base, counter)) == Bare(rules)
  {
    if rules != [] {
      var n := |rules| - 1;
      StampBare(rules[..n], base, counter);
      BareConcat(Stamp(rules[..n], base, counter), [SetPriority(rules[n], Priority(base, counter + n))]);
      BareConcat(rules[..n], [rules[n]]);
      assert rules == rules[..n] + [rules[n]];
    }
  }

  lemma {:induction false} MergeGet(base: IndexMap, from: IndexMap, k: string)
    ensures MergeUsers(base, from).Get(k) == base.Get(k) + from.Get(k)
  {
    if from.Entry? {
      MergeGet(base, from.front, k);
      AbsentGet(from.front, from.key);
      var merged := MergeUsers(base, from.front);
      InsertGet(merged, from.key, Context(merged.Get(from.key) + from.context.rules), k);
    }
  }

  /** How many rules come before context k. */
  function Offset(u: IndexMap, k: string): nat
    requires u.Has(k)
  {
    if k == u.key then RuleCount(u.front) else Offset(u.front, k)
  }

  lemma {:induction false} StampUsersGet(u: IndexMap, counter: nat, k: string)
    requires u.Has(k)
    ensures StampUsers(u, counter).Get(k) == Stamp(u.Get(k), USER_BASE, counter + Offset(u, k))
  {
    if k != u.key {
      StampUsersGet(u.front, counter, k);
    }
  }

  lemma {:induction false} StampUsersKeys(u: IndexMap, counter: nat)
    ensures StampUsers(u, counter).Keys() == u.Keys()
  {
    if u.Entry? {
      StampUsersKeys(u.front, counter);
    }
  }

  lemma StampedBare(c: Config, counter: nat, k: string)
    ensures Bare(DefaultRules(Stamped(c, counter))) == Bare(DefaultRules(c))
    ensures Bare(Users(Stamped(c, counter)).Get(k)) == Bare(Users(c).Get(k))
    ensures Users(Stamped(c, counter)).Keys() == Users(c).Keys()
  {
    StampBare(DefaultRules(c), DEFAULT_BASE, counter + RuleCount(Users(c)));
    StampUsersKeys(Users(c), counter);
    if Users(c).Has(k) {
      StampUsersGet(Users(c), counter, k);
      StampBare(Users(c).Get(k), USER_BASE, counter + Offset(Users(c), k));
    } else {
      AbsentGet(Users(c), k);
      AbsentGet(StampUsers(Users(c), counter), k);
    }
  }

  lemma MergedBare(base: Config, file: Config, counter: nat, k: string, merged: Config)
    requires merged == Merged(base, Stamped(file, counter))
    ensures Bare(DefaultRules(merged)) == Bare(DefaultRules(base)) + Bare(DefaultRules(file))
    ensures Bare(Users(merged).Get(k)) == Bare(Users(base).Get(k)) + Bare(Users(file).Get(k))
  {
    var stamped := Stamped(file, counter);
    StampedBare(file, counter, k);
    MergeGet(Users(base), Users(stamped), k);
    BareConcat(DefaultRules(base), DefaultRules(stamped));
    BareConcat(Users(base).Get(k), Users(stamped).Get(k));
  }

  /** Loading keeps the files' text: stamping changes priorities only, merging appends. */
  lemma {:induction false} LoadingKeepsText(files: seq<Config>, k: string)
    ensures Bare(DefaultRules(Loaded(files))) == Bare(RawDefaults(files))
    ensures Bare(Users(Loaded(files)).Get(k)) == Bare(RawUser(files, k))
  {
    hide *;
    if files == [] {
      NothingLoaded(k);
    } else {
      var before, file := files[..|files| - 1], files[|files| - 1];
      LoadingKeepsText(before, k);
      LastLoaded(files);
      LastDefaults(files);
      LastUser(files, k);
      MergedBare(Loaded(before), file, FIRST_PRIORITY + TotalRules(before), k, Loaded(files));
      BareConcat(RawDefaults(before), DefaultRules(file));
      BareConcat(RawUser(before, k), Users(file).Get(k));
    }
  }

  lemma NothingLoaded(k: string)
    ensures DefaultRules(Loaded([])) == RawDefaults([]) == [] && Users(Loaded([])).Get(k) == RawUser([], k) == []
  {
    assert Loaded([]) == Config(None, None);
  }

  lemma LastLoaded(files: seq<Config>)
    requires files != []
    ensures var before, file := files[..|files| - 1], files[|files| - 1];
            Loaded(files) == Merged(Loaded(before), Stamped(file, FIRST_PRIORITY + TotalRules(before)))
  {
    hide Merged, Stamped, TotalRules;
  }

  lemma LastDefaults(files: seq<Config>)
    requires files != []
    ensures RawDefaults(files) == RawDefaults(files[..|files| - 1]) + DefaultRules(files[|files| - 1])
  {
  }

  lemma LastUser(files: seq<Config>, k: string)
    requires files != []
    ensures RawUser(files, k) == RawUser(files[..|files| - 1], k) + Users(files[|files| - 1]).Get(k)
  {
  }

  lemma {:induction false} KeysHas(m: IndexMap, k: string)
    ensures k in m.Keys() <==> m.Has(k)
  {
    if m.Entry? {
      KeysHas(m.front, k);
    }
  }

  lemma {:induction false} MergeKeys(base: IndexMap, from: IndexMap)
    ensures MergeUsers(base, from).Keys() == MergeNames(base.Keys(), from.Keys())
  {
    if from.Entry? {
      MergeKeys(base, from.front);
      var merged := MergeUsers(base, from.front);
      InsertKeys(merged, from.key, Context(merged.Get(from.key) + from.context.rules));
      KeysHas(merged, from.key);
      assert from.Keys()[..|from.Keys()| - 1] == from.front.Keys();
    }
  }

  lemma NoKeys()
    ensures EntryList.Empty.Keys() == []
  {
  }

  lemma NothingNamed()
    ensures Users(Loaded([])).Keys() == NameOrder([]) == []
  {
    assert Loaded([]) == Config(None, None);
    NoKeys();
  }

  lemma LastNames(files: seq<Config>)
    requires files != []
    ensures NameOrder(files) == MergeNames(NameOrder(files[..|files| - 1]), Users(files[|files| - 1]).Keys())
  {
    hide MergeNames, EntryList.Keys;
  }

  lemma MergedKeys(base: Config, file: Config, counter: nat, merged: Config, names: seq<string>, all: seq<string>)
    requires merged == Merged(base, Stamped(file, counter))
    requires Users(base).Keys() == names && all == MergeNames(names, Users(file).Keys())
    ensures Users(merged).Keys() == all
  {
    StampedBare(file, counter, "");
    MergeKeys(Users(base), Users(Stamped(file, counter)));
  }

  /** User contexts are kept in order of first appearance over all files. */
  lemma {:induction false} LoadingKeepsNameOrder(files: seq<Config>)
    ensures Users(Loaded(files)).Keys() == NameOrder(files)
  {
    hide *;
    if files == [] {
      NothingNamed();
    } else {
      var before, file := files[..|files| - 1], files[|files| - 1];
      LoadingKeepsNameOrder(before);
      LastLoaded(files);
      LastNames(files);
      MergedKeys(Loaded(before), file, FIRST_PRIORITY + TotalRules(before), Loaded(files),
                 NameOrder(before), NameOrder(files));
    }
  }

  // ----------------------------------------------------------------------------- priorities

  predicate Increasing(rules: seq<Rule>) {
    forall i, j :: 0 <= i < j < |rules| ==> rules[i].priority < rules[j].priority
  }

  /** All priorities come from counters in [low, high). */
  predicate Within(rules: seq<Rule>, base: nat, low: nat, high: nat) {
    forall r :: r in rules ==>
      base + low <= r.priority < base + high
  }

  /** Priorities rise in load order and come from counters in [low, high). */
  predicate Ranked(rules: seq<Rule>, base: nat, low: nat, high: nat) {
    Increasing(rules) && Within(rules, base, low, high)
  }

  /** No rule of one list shares its priority with a rule of the other. */
  predicate Apart(a: seq<Rule>, b: seq<Rule>) {
    forall r, q :: r in a && q in b ==> r.priority != q.priority
  }

  lemma {:induction false} StampRanks(rules: seq<Rule>, base: nat, counter: nat)
    requires base + counter + |rules| <= U64_MODULUS
    ensures Ranked(Stamp(rules, base, counter), base, counter, counter + |rules|)
  {
    if rules != [] {
      var n := |rules| - 1;
      StampRanks(rules[..n], base, counter);
      IncreasingConcat(Stamp(rules[..n], base, counter), [SetPriority(rules[n], Priority(base, counter + n))],
                       base, counter, counter + n, counter + n + 1);
    }
  }

  lemma {:induction false} OffsetBound(u: IndexMap, k: string)
    requires u.Has(k)
    ensures Offset(u, k) + |u.Get(k)| <= RuleCount(u)
  {
    if k != u.key {
      OffsetBound(u.front, k);
    }
  }

  /** Different contexts occupy different stretches of the counter. */
  lemma {:induction false} OffsetsApart(u: IndexMap, j: string, k: string)
    requires u.Has(j) && u.Has(k) && j != k
    ensures Offset(u, j) + |u.Get(j)| <= Offset(u, k) || Offset(u, k) + |u.Get(k)| <= Offset(u, j)
  {
    if j == u.key {
      OffsetBound(u.front, k);
    } else if k == u.key {
      OffsetBound(u.front, j);
    } else {
      OffsetsApart(u.front, j, k);
    }
  }

  lemma StampedContextRanks(u: IndexMap, counter: nat, k: string)
    requires u.Has(k) && USER_BASE + counter + RuleCount(u) <= U64_MODULUS
    ensures Ranked(StampUsers(u, counter).Get(k), USER_BASE,
                   counter + Offset(u, k), counter + Offset(u, k) + |u.Get(k)|)
  {
    StampUsersGet(u, counter, k);
    OffsetBound(u, k);
    StampRanks(u.Get(k), USER_BASE, counter + Offset(u, k));
  }

  lemma StampedUserRanks(u: IndexMap, counter: nat, k: string)
    requires USER_BASE + counter + RuleCount(u) <= U64_MODULUS
    ensures Ranked(StampUsers(u, counter).Get(k), USER_BASE, counter, counter + RuleCount(u))
  {
    if u.Has(k) {
      StampedContextRanks(u, counter, k);
      OffsetBound(u, k);
    } else {
      AbsentGet(StampUsers(u, counter), k);
    }
  }

  lemma StampedUsersApart(u: IndexMap, counter: nat, j: string, k: string)
    requires USER_BASE + counter + RuleCount(u) <= U64_MODULUS && j != k
    ensures Apart(StampUsers(u, counter).Get(j), StampUsers(u, counter).Get(k))
  {
    if u.Has(j) && u.Has(k) {
      StampedContextRanks(u, counter, j);
      StampedContextRanks(u, counter, k);
      OffsetsApart(u, j, k);
    } else if u.Has(j) {
      AbsentGet(StampUsers(u, counter), k);
    } else {
      AbsentGet(StampUsers(u, counter), j);
    }
  }

  lemma IncreasingConcat(a: seq<Rule>, b: seq<Rule>, base: nat, low: nat, mid: nat, high: nat)
    requires Ranked(a, base, low, mid) && Ranked(b, base, mid, high) && low <= mid <= high
    ensures Ranked(a + b, base, low, high)
  {
  }

  lemma RankedWider(rules: seq<Rule>, base: nat, low: nat, high: nat, lower: nat, higher: nat)
    requires Ranked(rules, base, low, high) && lower <= low && high <= higher
    ensures Ranked(rules, base, lower, higher)
  {
  }

  lemma ApartConcat(a: seq<Rule>, a': seq<Rule>, b: seq<Rule>, b': seq<Rule>, mid: nat, high: nat)
    requires Apart(a, b) && Apart(a', b')
    requires Ranked(a, USER_BASE, FIRST_PRIORITY, mid) && Ranked(b, USER_BASE, FIRST_PRIORITY, mid)
    requires Ranked(a', USER_BASE, mid, high) && Ranked(b', USER_BASE, mid, high)
    ensures Apart(a + a', b + b')
  {
  }

  /** No default rule's priority wraps. */
  predicate DefaultsFit(files: seq<Config>) {
    DEFAULT_BASE + FIRST_PRIORITY + TotalRules(files) <= U64_MODULUS
  }

  /** No user rule's priority wraps. */
  predicate UsersFit(files: seq<Config>) {
    USER_BASE + FIRST_PRIORITY + TotalRules(files) <= U64_MODULUS
  }

  /** The number of rules for which every user rule ranks above every default rule. */
  predicate Loadable(files: seq<Config>) {
    TotalRules(files) <= 2 * PRIORITY_BASE
  }

  lemma LoadableFits(files: seq<Config>)
    requires Loadable(files)
    ensures UsersFit(files) && DefaultsFit(files)
  {
  }

  lemma MergedDefaults(base: Config, file: Config, counter: nat, merged: Config)
    requires merged == Merged(base, Stamped(file, counter))
    ensures DefaultRules(merged) ==
            DefaultRules(base) + Stamp(DefaultRules(file), DEFAULT_BASE, counter + RuleCount(Users(file)))
  {
  }

  lemma MergedUser(base: Config, file: Config, counter: nat, merged: Config, k: string)
    requires merged == Merged(base, Stamped(file, counter))
    ensures Users(merged).Get(k) == Users(base).Get(k) + StampUsers(Users(file), counter).Get(k)
  {
    MergeGet(Users(base), StampUsers(Users(file), counter), k);
  }

  lemma DefaultsStep(base: seq<Rule>, rules: seq<Rule>, n: nat, mid: nat, merged: seq<Rule>)
    requires Ranked(base, DEFAULT_BASE, FIRST_PRIORITY, mid) && FIRST_PRIORITY <= mid
    requires DEFAULT_BASE + mid + n + |rules| <= U64_MODULUS
    requires merged == base + Stamp(rules, DEFAULT_BASE, mid + n)
    ensures Ranked(merged, DEFAULT_BASE, FIRST_PRIORITY, mid + n + |rules|)
  {
    StampRanks(rules, DEFAULT_BASE, mid + n);
    RankedWider(Stamp(rules, DEFAULT_BASE, mid + n), DEFAULT_BASE, mid + n, mid + n + |rules|, mid, mid + n + |rules|);
    IncreasingConcat(base, Stamp(rules, DEFAULT_BASE, mid + n), DEFAULT_BASE, FIRST_PRIORITY, mid, mid + n + |rules|);
  }

  lemma MergedDefaultsRank(base: Config, file: Config, mid: nat, merged: Config)
    requires merged == Merged(base, Stamped(file, mid))
    requires Ranked(DefaultRules(base), DEFAULT_BASE, FIRST_PRIORITY, mid) && FIRST_PRIORITY <= mid
    requires DEFAULT_BASE + mid + ConfigRuleCount(file) <= U64_MODULUS
    ensures Ranked(DefaultRules(merged), DEFAULT_BASE, FIRST_PRIORITY, mid + ConfigRuleCount(file))
  {
    MergedDefaults(base, file, mid, merged);
    DefaultsStep(DefaultRules(base), DefaultRules(file), RuleCount(Users(file)), mid, DefaultRules(merged));
  }

  /** Over a whole load run no default rule's priority wraps, and they rise in load order. */
  lemma {:induction false} DefaultsRank(files: seq<Config>)
    requires DefaultsFit(files)
    ensures Ranked(DefaultRules(Loaded(files)), DEFAULT_BASE, FIRST_PRIORITY, FIRST_PRIORITY + TotalRules(files))
  {
    if files != [] {
      var before, file := files[..|files| - 1], files[|files| - 1];
      var mid := FIRST_PRIORITY + TotalRules(before);
      DefaultsRank(before);
      MergedDefaultsRank(Loaded(before), file, mid, Loaded(files));
    }
  }

  lemma UserStep(base: seq<Rule>, u: IndexMap, k: string, mid: nat, high: nat, merged: seq<Rule>)
    requires Ranked(base, USER_BASE, FIRST_PRIORITY, mid) && FIRST_PRIORITY <= mid
    requires mid + RuleCount(u) <= high && USER_BASE + high <= U64_MODULUS
    requires merged == base + StampUsers(u, mid).Get(k)
    ensures Ranked(merged, USER_BASE, FIRST_PRIORITY, high)
  {
    StampedUserRanks(u, mid, k);
    RankedWider(StampUsers(u, mid).Get(k), USER_BASE, mid, mid + RuleCount(u), mid, high);
    IncreasingConcat(base, StampUsers(u, mid).Get(k), USER_BASE, FIRST_PRIORITY, mid, high);
  }

  /** The same for every merged user context. */
  lemma {:induction false} UserRanks(files: seq<Config>, k: string)
    requires UsersFit(files)
    ensures Ranked(Users(Loaded(files)).Get(k), USER_BASE, FIRST_PRIORITY, FIRST_PRIORITY + TotalRules(files))
  {
    if files != [] {
      var before, file := files[..|files| - 1], files[|files| - 1];
      var mid := FIRST_PRIORITY + TotalRules(before);
      UserRanks(before, k);
      MergedUser(Loaded(before), file, mid, Loaded(files), k);
      UserStep(Users(Loaded(before)).Get(k), Users(file), k, mid, mid + ConfigRuleCount(file),
               Users(Loaded(files)).Get(k));
    }
  }

  lemma ApartStep(base: seq<Rule>, base': seq<Rule>, u: IndexMap, j: string, k: string, mid: nat,
                  merged: seq<Rule>, merged': seq<Rule>)
    requires Apart(base, base') && j != k
    requires Ranked(base, USER_BASE, FIRST_PRIORITY, mid) && Ranked(base', USER_BASE, FIRST_PRIORITY, mid)
    requires USER_BASE + mid + RuleCount(u) <= U64_MODULUS
    requires merged == base + StampUsers(u, mid).Get(j) && merged' == base' + StampUsers(u, mid).Get(k)
    ensures Apart(merged, merged')
  {
    StampedUserRanks(u, mid, j);
    StampedUserRanks(u, mid, k);
    StampedUsersApart(u, mid, j, k);
    ApartConcat(base, StampUsers(u, mid).Get(j), base', StampUsers(u, mid).Get(k), mid, mid + RuleCount(u));
  }

  lemma {:induction false} UsersApart(files: seq<Config>, j: string, k: string)
    requires UsersFit(files) && j != k
    ensures Apart(Users(Loaded(files)).Get(j), Users(Loaded(files)).Get(k))
  {
    if files != [] {
      var before, file := files[..|files| - 1], files[|files| - 1];
      var mid := FIRST_PRIORITY + TotalRules(before);
      UsersApart(before, j, k);
      UserRanks(before, j);
      UserRanks(before, k);
      MergedUser(Loaded(before), file, mid, Loaded(files), j);
      MergedUser(Loaded(before), file, mid, Loaded(files), k);
      ApartStep(Users(Loaded(before)).Get(j), Users(Loaded(before)).Get(k), Users(file), j, k, mid,
                Users(Loaded(files)).Get(j), Users(Loaded(files)).Get(k));
    }
  }

  /** Every user-context rule outranks every default-context rule, whichever was loaded first. */
  lemma UserRulesOutrankDefaultRules(files: seq<Config>, name: string, userRule: Rule, defaultRule: Rule)
    requires Loadable(files)
    requires userRule in Users(Loaded(files)).Get(name)
    requires defaultRule in DefaultRules(Loaded(files))
    ensures userRule.priority > defaultRule.priority
  {
    LoadableFits(files);
    DefaultsRank(files);
    UserRanks(files, name);
  }

  /** A context: the default one, or a user's. */
  datatype Place = InDefault | InUser(name: string)

  function RulesAt(c: Config, place: Place): seq<Rule> {
    match place
    case InDefault => DefaultRules(c)
    case InUser(name) => Users(c).Get(name)
  }

  /** No two rules of a load run share a priority, wherever they are. */
  lemma PrioritiesDistinct(files: seq<Config>, a: Place, i: nat, b: Place, j: nat)
    requires Loadable(files)
    requires i < |RulesAt(Loaded(files), a)| && j < |RulesAt(Loaded(files), b)| && (a, i) != (b, j)
    ensures RulesAt(Loaded(files), a)[i].priority != RulesAt(Loaded(files), b)[j].priority
  {
    hide Loaded, TotalRules;
    LoadableFits(files);
    DefaultsRank(files);
    if a.InUser? { UserRanks(files, a.name); }
    if b.InUser? { UserRanks(files, b.name); }
    if a.InUser? && b.InUser? && a != b { UsersApart(files, a.name, b.name); }
  }

  ghost predicate UsersOutrank(files: seq<Config>) {
    forall name, u, d ::
      u in Users(Loaded(files)).Get(name) && d in DefaultRules(Loaded(files)) ==> u.priority > d.priority
  }

  lemma {:induction false} StampAt(rules: seq<Rule>, base: nat, counter: nat, i: nat)
    requires i < |rules|
    ensures Stamp(rules, base, counter)[i] == SetPriority(rules[i], Priority(base, counter + i))
  {
    if i < |rules| - 1 {
      StampAt(rules[..|rules| - 1], base, counter, i);
    }
  }

  /** A file with one rule, for one user. */
  function OneUserRule(name: string, r: Rule): Config {
    Config(None, Some(Insert(Empty, name, Context([r]))))
  }

  /** One user rule, and then n equal default rules. */
  function LateDefaults(own: Rule, late: Rule, n: nat): seq<Config> {
    [OneUserRule("0", own), Config(Some(Context(seq(n, _ => late))), None)]
  }

  lemma LateDefaultsLoaded(own: Rule, late: Rule, n: nat)
    ensures TotalRules(LateDefaults(own, late, n)) == n + 1
    ensures Users(Loaded(LateDefaults(own, late, n))).Get("0") ==
            [SetPriority(own, Priority(USER_BASE, FIRST_PRIORITY))]
    ensures DefaultRules(Loaded(LateDefaults(own, late, n))) ==
            Stamp(seq(n, _ => late), DEFAULT_BASE, FIRST_PRIORITY + 1)
  {
    var files := LateDefaults(own, late, n);
    assert files[..1] == [files[0]] && files[..1][..0] == [];
    FirstLoaded(own);
    var base := Loaded(files[..1]);
    assert RuleCount(Empty) == 0;
    MergedDefaults(base, files[1], FIRST_PRIORITY + 1, Loaded(files));
    MergedUser(base, files[1], FIRST_PRIORITY + 1, Loaded(files), "0");
  }

  /** Twice the base later, a default rule has caught up with the user rule. */
  lemma LateDefaultCatchesUp(own: Rule, late: Rule, n: nat)
    requires n >= 2 * PRIORITY_BASE
    ensures var defaults, i := DefaultRules(Loaded(LateDefaults(own, late, n))), 2 * PRIORITY_BASE - 1;
            && i < |defaults|
            && defaults[i] == SetPriority(late, Priority(USER_BASE, FIRST_PRIORITY))
  {
    var i := 2 * PRIORITY_BASE - 1;
    LateDefaultsLoaded(own, late, n);
    StampAt(seq(n, _ => late), DEFAULT_BASE, FIRST_PRIORITY + 1, i);
    SamePriority();
  }

  lemma SamePriority()
    ensures Priority(DEFAULT_BASE, FIRST_PRIORITY + 1 + (2 * PRIORITY_BASE - 1)) == Priority(USER_BASE, FIRST_PRIORITY)
  {
  }

  lemma FirstLoaded(r: Rule)
    ensures var file := OneUserRule("0", r);
            && TotalRules([file]) == 1
            && DefaultRules(Loaded([file])) == []
            && Users(Loaded([file])).Get("0") == [SetPriority(r, Priority(USER_BASE, FIRST_PRIORITY))]
  {
    var file := OneUserRule("0", r);
    assert Users(file) == Entry(Empty, "0", Context([r])) && RuleCount(Empty) == 0;
    assert [file][..0] == [];
    assert Loaded([]) == Config(None, None) && TotalRules([]) == 0;
    var loaded := Merged(Loaded([]), Stamped(file, FIRST_PRIORITY));
    assert Loaded([file]) == loaded;
    MergedDefaults(Loaded([]), file, FIRST_PRIORITY, loaded);
    MergedUser(Loaded([]), file, FIRST_PRIORITY, loaded, "0");
    assert [r][..0] == [];
  }

  /** The exact reach of the ranking: every load run of n rules ranks user rules above default
      rules if and only if n is at most twice the base. */
  lemma RankingReach(n: nat)
    ensures (forall files :: TotalRules(files) == n ==> UsersOutrank(files)) <==> n <= 2 * PRIORITY_BASE
  {
    if n <= 2 * PRIORITY_BASE {
      forall files | TotalRules(files) == n ensures UsersOutrank(files) {
        forall name, u, d | u in Users(Loaded(files)).Get(name) && d in DefaultRules(Loaded(files))
          ensures u.priority > d.priority
        {
          UserRulesOutrankDefaultRules(files, name, u, d);
        }
      }
    } else {
      OutrankedBeyond(n);
    }
  }

  lemma OutrankedBeyond(n: nat)
    requires n > 2 * PRIORITY_BASE
    ensures exists files :: TotalRules(files) == n && !UsersOutrank(files)
  {
    hide Loaded, TotalRules, LateDefaults, Priority, UsersOutrank;
    var r := Own("a", true, 0);
    var files := LateDefaults(r, r, n - 1);
    LateDefaultsLoaded(r, r, n - 1);
    LateDefaultCatchesUp(r, r, n - 1);
    NotOutranked(files, "0", 0, 2 * PRIORITY_BASE - 1);
  }

  lemma NotOutranked(files: seq<Config>, name: string, i: nat, j: nat)
    requires i < |Users(Loaded(files)).Get(name)| && j < |DefaultRules(Loaded(files))|
    requires Users(Loaded(files)).Get(name)[i].priority <= DefaultRules(Loaded(files))[j].priority
    ensures !UsersOutrank(files)
  {
    assert Users(Loaded(files)).Get(name)[i] in Users(Loaded(files)).Get(name);
    assert DefaultRules(Loaded(files))[j] in DefaultRules(Loaded(files));
  }
}
