/** The values whippet's policy compiler works on, and each of its passes as a function on
    them.  The class in WhippetPolicy.dfy performs the passes in place and is proved equal to
    these functions; what the passes mean is proved about them in the Whippet* proof modules. */
module PolicyModel {
  import opened Wrappers
  import opened Decimal

  const U64_MODULUS: nat := 0x1_0000_0000_0000_0000
  type u64 = n: nat | n < 0x1_0000_0000_0000_0000

  const DEFAULT_POLICY_CONTEXT_MULTIPLIER: nat := 1
  const DEFAULT_POLICY_CONTEXT_USER: nat := 3
  const PRIORITY_BASE: nat := 0x2492_4924_9249_2492  // u64::MAX / 7
  const FIRST_PRIORITY: nat := 3
  const DEFAULT_USER_ID: u32 := U32_MAX

  datatype MessageType = Invalid | MethodCall | Signal

  datatype Rule =
    | ConnectUser(allow: bool, user: string, priority: u64)
    | Own(own: string, allow: bool, priority: u64)
    | Send(name: string, interface: string, member: string, path: string,
           messageType: MessageType, broadcast: u32, allow: bool, priority: u64)
    | Receive(name: string, interface: string, member: string, path: string,
              messageType: MessageType, broadcast: u32, allow: bool, priority: u64)

  datatype Context = Context(rules: seq<Rule>)

  datatype Error =
    | UserContextWithConnectRule(username: string)
    | UserNotFound(username: string)
    | UserLookupFailed(username: string)
    | RuleToRecord
    | ParseUid(uid: string)

  // ---------------------------------------------------------------- insertion-ordered maps

  /** A map as the list of its entries, newest last. */
  datatype EntryList = Empty | Entry(front: EntryList, key: string, context: Context)
  {
    predicate Has(k: string) { Entry? && (key == k || front.Has(k)) }

    /** No key twice. */
    predicate Valid() { Entry? ==> !front.Has(key) && front.Valid() }

    /** The rules of a context; a missing context has none. */
    function Get(k: string): seq<Rule> {
      if Empty? then [] else if key == k then context.rules else front.Get(k)
    }

    function Keys(): seq<string> {
      if Empty? then [] else front.Keys() + [key]
    }
  }

  type IndexMap = m: EntryList | m.Valid() witness Empty

  function Replace(m: IndexMap, k: string, c: Context): (r: IndexMap)
    requires m.Has(k)
    ensures forall j :: r.Has(j) <==> m.Has(j)
  {
    if m.key == k then m.(context := c) else m.(front := Replace(m.front, k, c))
  }

  /** `insert`: an existing key keeps its place and loses its old value. */
  function Insert(m: IndexMap, k: string, c: Context): (r: IndexMap)
    ensures forall j :: r.Has(j) <==> j == k || m.Has(j)
  {
    if m.Has(k) then Replace(m, k, c) else Entry(m, k, c)
  }

  lemma {:induction false} AbsentGet(m: IndexMap, k: string)
    requires !m.Has(k)
    ensures m.Get(k) == []
  {
    if m.Entry? {
      AbsentGet(m.front, k);
    }
  }

  lemma {:induction false} InsertGet(m: IndexMap, k: string, c: Context, j: string)
    ensures Insert(m, k, c).Get(j) == if j == k then c.rules else m.Get(j)
  {
    if m.Has(k) && m.key != k {
      InsertGet(m.front, k, c, j);
    }
  }

  lemma {:induction false} InsertKeys(m: IndexMap, k: string, c: Context)
    ensures Insert(m, k, c).Keys() == if m.Has(k) then m.Keys() else m.Keys() + [k]
  {
    if m.Has(k) && m.key != k {
      InsertKeys(m.front, k, c);
    }
  }

  /** `entry(k).or_default().rules.extend(rules)` */
  function Extend(m: IndexMap, k: string, rules: seq<Rule>): IndexMap {
    Insert(m, k, Context(m.Get(k) + rules))
  }

  // ------------------------------------------------------------------------------ policies

  datatype Config = Config(default: Option<Context>, user: Option<IndexMap>)

  function DefaultRules(c: Config): seq<Rule> {
    if c.default.Some? then c.default.value.rules else []
  }

  function Users(c: Config): IndexMap {
    if c.user.Some? then c.user.value else Empty
  }

  function Filter(s: seq<Rule>, p: Rule -> bool): seq<Rule> {
    if s == [] then []
    else if p(s[|s| - 1]) then Filter(s[..|s| - 1], p) + [s[|s| - 1]]
    else Filter(s[..|s| - 1], p)
  }

  predicate IsConnect(r: Rule) { r.ConnectUser? }

  // ------------------------------------------------------------------------------ stamping

  const USER_BASE: nat := DEFAULT_POLICY_CONTEXT_USER * PRIORITY_BASE
  const DEFAULT_BASE: nat := DEFAULT_POLICY_CONTEXT_MULTIPLIER * PRIORITY_BASE

  /** `u64` arithmetic in the release profile. */
  function Wrap(n: nat): u64 {
    if n < 0x1_0000_0000_0000_0000 then n else Wrap(n - 0x1_0000_0000_0000_0000)
  }

  function Priority(base: nat, counter: nat): u64 { Wrap(base + counter) }

  function SetPriority(r: Rule, priority: u64): Rule { r.(priority := priority) }

  function Stamp(rules: seq<Rule>, base: nat, counter: nat): (r: seq<Rule>)
    ensures |r| == |rules|
  {
    if rules == [] then []
    else
      var n := |rules| - 1;
      Stamp(rules[..n], base, counter) + [SetPriority(rules[n], Priority(base, counter + n))]
  }

  /** The number of rules in all contexts. */
  function RuleCount(u: IndexMap): nat {
    if u.Empty? then 0 else RuleCount(u.front) + |u.context.rules|
  }

  /** The contexts stamped one after the other. */
  function StampUsers(u: IndexMap, counter: nat): (r: IndexMap)
    ensures forall k :: r.Has(k) <==> u.Has(k)
  {
    if u.Empty? then Empty
    else
      var rules := Stamp(u.context.rules, USER_BASE, counter + RuleCount(u.front));
      Entry(StampUsers(u.front, counter), u.key, Context(rules))
  }

  function ConfigRuleCount(c: Config): nat {
    RuleCount(Users(c)) + |DefaultRules(c)|
  }

  function Stamped(c: Config, counter: nat): Config {
    var afterUsers := counter + RuleCount(Users(c));
    Config(
      if c.default.Some? then Some(Context(Stamp(c.default.value.rules, DEFAULT_BASE, afterUsers)))
      else None,
      if c.user.Some? then Some(StampUsers(c.user.value, counter)) else None)
  }

  // ------------------------------------------------------------------------------- loading

  /** The contexts of `from` appended to their namesakes in `base`. */
  function MergeUsers(base: IndexMap, from: IndexMap): IndexMap {
    if from.Empty? then base
    else Extend(MergeUsers(base, from.front), from.key, from.context.rules)
  }

  function Merged(base: Config, file: Config): Config {
    Config(
      Some(Context(DefaultRules(base) + DefaultRules(file))),
      Some(MergeUsers(Users(base), Users(file))))
  }

  function TotalRules(files: seq<Config>): nat {
    if files == [] then 0 else TotalRules(files[..|files| - 1]) + ConfigRuleCount(files[|files| - 1])
  }

  /** All files loaded in order, with one running priority counter. */
  function Loaded(files: seq<Config>): Config {
    if files == [] then Config(None, None)
    else
      var before := files[..|files| - 1];
      Merged(Loaded(before), Stamped(files[|files| - 1], FIRST_PRIORITY + TotalRules(before)))
  }

  // --------------------------------------------------------------- validation and resolving

  /** The first user context, in order, that holds a connect rule is refused. */
  function ValidUsers(u: IndexMap): Result<(), Error> {
    if u.Empty? then Ok(())
    else
      var _ :- ValidUsers(u.front);
      if exists r :: r in u.context.rules && IsConnect(r) then Err(UserContextWithConnectRule(u.key)) else Ok(())
  }

  function Validated(c: Config): Result<(), Error> { ValidUsers(Users(c)) }

  datatype Lookup = Found(uid: u32) | Missing | Failed

  type Passwd = string -> Lookup

  function Resolve(passwd: Passwd, username: string): Result<u32, Error> {
    if username == "*" then Ok(DEFAULT_USER_ID)
    else if ParseU32(username).Some? then Ok(ParseU32(username).value)
    else match passwd(username)
      case Found(uid) => Ok(uid)
      case Missing => Err(UserNotFound(username))
      case Failed => Err(UserLookupFailed(username))
  }

  function ResolveRule(passwd: Passwd, r: Rule): Result<Rule, Error> {
    if IsConnect(r) then
      var uid :- Resolve(passwd, r.user);
      Ok(r.(user := Show(uid)))
    else Ok(r)
  }

  function ResolveRules(passwd: Passwd, rules: seq<Rule>): Result<seq<Rule>, Error> {
    if rules == [] then Ok([])
    else
      var front :- ResolveRules(passwd, rules[..|rules| - 1]);
      var last :- ResolveRule(passwd, rules[|rules| - 1]);
      Ok(front + [last])
  }

  /** The rules as far as they were resolved before the first failure, the others as they were. */
  function ResolvedSoFar(passwd: Passwd, rules: seq<Rule>): (r: seq<Rule>)
    ensures |r| == |rules|
    ensures ResolveRules(passwd, rules).Ok? ==> ResolveRules(passwd, rules).value == r
  {
    if rules == [] then []
    else
      var front, last := rules[..|rules| - 1], rules[|rules| - 1];
      ResolvedSoFar(passwd, front)
      + [if ResolveRules(passwd, front).Ok? && ResolveRule(passwd, last).Ok? then ResolveRule(passwd, last).value
         else last]
  }

  /** The contexts re-keyed by uid; a later context with the same uid overwrites. */
  function ResolveUsers(passwd: Passwd, u: IndexMap): Result<IndexMap, Error> {
    if u.Empty? then Ok(Empty)
    else
      var front :- ResolveUsers(passwd, u.front);
      var uid :- Resolve(passwd, u.key);
      Ok(Insert(front, Show(uid), u.context))
  }

  function Resolved(passwd: Passwd, c: Config): Result<Config, Error> {
    var rules :- ResolveRules(passwd, DefaultRules(c));
    var users :- ResolveUsers(passwd, Users(c));
    Ok(Config(if c.default.Some? then Some(Context(rules)) else None, Some(users)))
  }

  /** What a failed resolution leaves: default rules resolved up to the failure and, if that came
      later, no user contexts. */
  function LeftUnresolved(passwd: Passwd, c: Config): Config {
    Config(
      if c.default.Some? then Some(Context(ResolvedSoFar(passwd, c.default.value.rules))) else None,
      if ResolveRules(passwd, DefaultRules(c)).Ok? then None else c.user)
  }

  // ------------------------------------------------------------------------------ preparing

  const WILDCARD: string := Show(DEFAULT_USER_ID)

  /** The connect rules `prepare` takes out of the default context. */
  predicate Movable(r: Rule) { IsConnect(r) && r.user != WILDCARD }

  predicate Stays(r: Rule) { !Movable(r) }

  /** Rules pushed to their users' contexts, popped from the end. */
  function PopInto(u: IndexMap, moved: seq<Rule>): IndexMap
    requires forall r :: r in moved ==> IsConnect(r)
    decreases |moved|
  {
    if moved == [] then u
    else
      var last := moved[|moved| - 1];
      assert last in moved && IsConnect(last);
      PopInto(Extend(u, last.user, [last]), moved[..|moved| - 1])
  }

  lemma {:induction false} FilterMembers(s: seq<Rule>, p: Rule -> bool)
    ensures forall r :: r in Filter(s, p) <==> r in s && p(r)
  {
    if s != [] {
      FilterMembers(s[..|s| - 1], p);
      assert s == s[..|s| - 1] + [s[|s| - 1]];
    }
  }

  function MovedRules(c: Config): (moved: seq<Rule>)
    ensures forall r :: r in moved <==> r in DefaultRules(c) && Movable(r)
  {
    FilterMembers(DefaultRules(c), Movable);
    Filter(DefaultRules(c), Movable)
  }

  function Prepared(c: Config): Config {
    if MovedRules(c) == [] then c
    else Config(
      if c.default.Some? then Some(Context(Filter(c.default.value.rules, Stays))) else None,
      Some(PopInto(Users(c), MovedRules(c))))
  }

  // ----------------------------------------------------------------------------- optimizing

  /** The highest priority of the connect rules, 0 when there is none. */
  function Threshold(rules: seq<Rule>): (t: u64)
    ensures forall r :: r in rules && IsConnect(r) ==> r.priority <= t
    ensures t == 0 || exists r :: r in rules && IsConnect(r) && r.priority == t
  {
    if rules == [] then 0
    else
      var last := rules[|rules| - 1];
      var front := rules[..|rules| - 1];
      assert rules == front + [last];
      var t := Threshold(front);
      if IsConnect(last) && last.priority > t then last.priority else t
  }

  function Survives(threshold: u64): Rule -> bool {
    (r: Rule) => !IsConnect(r) || r.priority == threshold
  }

  /** What optimizing leaves of one user context. */
  function CleanedUser(threshold: u64, rules: seq<Rule>): seq<Rule> {
    var own := Threshold(rules);
    Filter(rules, Survives(if threshold > own then threshold else own))
  }

  /** Every context cleaned; contexts left without rules are dropped. */
  function OptimizedUsers(threshold: u64, u: IndexMap): (r: IndexMap)
    ensures forall k :: r.Has(k) ==> u.Has(k)
  {
    if u.Empty? then Empty
    else
      var front := OptimizedUsers(threshold, u.front);
      var rules := CleanedUser(threshold, u.context.rules);
      if rules == [] then front else Entry(front, u.key, Context(rules))
  }

  function Optimized(c: Config): Config {
    var threshold := Threshold(DefaultRules(c));
    Config(
      if c.default.Some? then Some(Context(Filter(c.default.value.rules, Survives(threshold)))) else None,
      if c.user.Some? then Some(OptimizedUsers(threshold, c.user.value)) else None)
  }
}
