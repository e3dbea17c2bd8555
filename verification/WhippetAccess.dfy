/** The meaning of own, send and receive rules in terms of requests: what a rule written in a policy
    file reaches, what the record it becomes reaches, and the decision on each request. */
module WhippetAccess {
  import opened Wrappers
  import opened Decimal
  import opened PolicyModel
  import opened DbusModel
  import opened WhippetLoad
  import opened WhippetLowering
  import opened WhippetRecords

  /** A message as policies see it.  Its type and whether it is a broadcast are compared in some
      way that rules and records share. */
  datatype Message = Message(peer: string, path: string, interface: string, member: string, fds: u64,
                             fits: (MessageType, u32) -> bool)

  datatype Request = OwnName(name: string) | SendMessage(m: Message) | ReceiveMessage(m: Message)
  {
    function Kind(): Kind {
      match this
      case OwnName(_) => OwnKind
      case SendMessage(_) => SendKind
      case ReceiveMessage(_) => ReceiveKind
    }
  }

  // -------------------------------------------------------------------- rules in policy files

  /** A field that is left out, or a star, stands for every value. */
  predicate Accepts(field: string, value: string) { field == "" || field == "*" || field == value }

  predicate RuleReaches(r: Rule, q: Request) {
    match q
    case OwnName(name) => r.Own? && (r.own == "*" || r.own == name)
    case SendMessage(m) =>
      && r.Send? && Accepts(r.name, m.peer) && Accepts(r.path, m.path)
      && Accepts(r.interface, m.interface) && Accepts(r.member, m.member) && m.fits(r.messageType, r.broadcast)
    case ReceiveMessage(m) =>
      && r.Receive? && Accepts(r.name, m.peer) && Accepts(r.path, m.path)
      && Accepts(r.interface, m.interface) && Accepts(r.member, m.member) && m.fits(r.messageType, r.broadcast)
  }

  /** What the last rule that reaches a request says. */
  function LastReaching(rules: seq<Rule>, q: Request): Option<bool> {
    if rules == [] then None
    else if RuleReaches(rules[|rules| - 1], q) then Some(rules[|rules| - 1].allow)
    else LastReaching(rules[..|rules| - 1], q)
  }

  /** The own context first, the default context otherwise. */
  ghost function Access(passwd: Passwd, files: seq<Config>, uid: u32, q: Request): Option<bool> {
    var own := if uid == DEFAULT_USER_ID then None else LastReaching(OwnRules(passwd, files, uid), q);
    if own.Some? then own else LastReaching(RawDefaults(files), q)
  }

  // ---------------------------------------------------------------------- records of a broker

  /** An empty field of a record stands for every value. */
  predicate Matching(field: string, value: string) { field == "" || field == value }

  predicate RecordReaches(r: Record, q: Request) {
    match q
    case OwnName(name) => r.OwnRecord? && if r.prefix then r.name <= name else r.name == name
    case SendMessage(m) =>
      && r.SendRecord? && Matching(r.name, m.peer) && Matching(r.path, m.path)
      && Matching(r.interface, m.interface) && Matching(r.member, m.member)
      && r.minFds <= m.fds <= r.maxFds && m.fits(r.recordType, r.broadcast)
    case ReceiveMessage(m) =>
      && r.ReceiveRecord? && Matching(r.name, m.peer) && Matching(r.path, m.path)
      && Matching(r.interface, m.interface) && Matching(r.member, m.member)
      && r.minFds <= m.fds <= r.maxFds && m.fits(r.recordType, r.broadcast)
  }

  function Reaching(q: Request): Matcher { (r: Record) => RecordReaches(r, q) }

  /** A rule reaches a request exactly when it has a record for that kind of request and the record
      does; the record gives the rule's verdict. */
  lemma RecordReachesIff(r: Rule, q: Request)
    ensures var record := ToRecord(q.Kind(), r);
            && (RuleReaches(r, q) <==> record.Ok? && RecordReaches(Unranked(record.value), q))
            && (record.Ok? ==> record.value.verdict == r.allow)
  {
  }

  // --------------------------------------------------------------------------- both together

  function VerdictOf(r: Option<Record>): Option<bool> { if r.Some? then Some(r.value.verdict) else None }

  lemma {:induction false} LastRecordReaches(rules: seq<Rule>, q: Request)
    ensures VerdictOf(LastMatching(q.Kind(), rules, Reaching(q))) == LastReaching(rules, q)
  {
    if rules != [] {
      RecordReachesIff(rules[|rules| - 1], q);
      LastRecordReaches(rules[..|rules| - 1], q);
    }
  }

  /** A record reaching a request that no other reaching record outranks. */
  predicate MayDecide(records: seq<Record>, q: Request, r: Record) {
    && r in records && RecordReaches(Unranked(r), q)
    && forall other :: other in records && RecordReaches(Unranked(other), q) ==> other.priority <= r.priority
  }

  /** In the batch a uid finds, every record that may decide gives the answer, and one does exactly
      when there is an answer. */
  ghost predicate Right(policy: DbusPolicy, uid: u32, q: Request, answer: Option<bool>) {
    && EffectiveBatch(policy, uid).Some?
    && var records := EffectiveBatch(policy, uid).value.Records(q.Kind());
    && (forall r :: MayDecide(records, q, r) ==> answer == Some(r.verdict))
    && (answer.Some? ==> exists r :: MayDecide(records, q, r))
    && (answer.None? ==> forall r :: r in records ==> !RecordReaches(Unranked(r), q))
  }

  /** End to end, for every run of files, uid and request: any record of highest priority that
      reaches the request says what the last loaded rule reaching it says, own context before
      default context; no record reaches it exactly when no rule does. */
  lemma AccessMeaning(passwd: Passwd, files: seq<Config>, uid: u32, policy: DbusPolicy, q: Request)
    requires Loadable(files)
    requires Compiled(passwd, files) == Ok(policy)
    ensures Right(policy, uid, q, Access(passwd, files, uid, q))
  {
    RankedMeaning(passwd, files, uid, policy, q);
    EffectiveRecords(passwd, files, uid, policy, q.Kind());
    var own := OwnBlock(passwd, Loaded(files), NameOrder(files), uid, q.Kind());
    var low := RecordsOf(q.Kind(), DefaultRules(Loaded(files)));
    BlocksRise(passwd, files, uid, q.Kind(), own, low);
    hide *;
    RightByRank(policy, uid, q, own, low, Access(passwd, files, uid, q));
  }

  /** The blocks of a batch: each rises in priority, and the own one lies above the default one. */
  lemma BlocksRise(passwd: Passwd, files: seq<Config>, uid: u32, kind: Kind, own: seq<Record>, low: seq<Record>)
    requires Loadable(files)
    requires own == OwnBlock(passwd, Loaded(files), NameOrder(files), uid, kind)
    requires low == RecordsOf(kind, DefaultRules(Loaded(files)))
    ensures Rising(own) && Rising(low)
    ensures forall a, b :: a in own && b in low ==> a.priority > b.priority
  {
    hide Loaded, NameOrder, RecordsOf, Owner;
    LoadableFits(files);
    DefaultsRank(files);
    RecordsRise(kind, DefaultRules(Loaded(files)));
    var owner := Owner(passwd, NameOrder(files), uid);
    if uid != DEFAULT_USER_ID && owner.Some? {
      UserRanks(files, owner.value);
      RecordsRise(kind, Users(Loaded(files)).Get(owner.value));
      OwnBlockOutranks(files, Loaded(files), owner.value, kind);
    }
  }

  /** No two records of such a batch are of equal rank. */
  lemma OneRank(own: seq<Record>, low: seq<Record>, a: Record, b: Record)
    requires Rising(own) && Rising(low) && forall x, y :: x in own && y in low ==> x.priority > y.priority
    requires a in own + low && b in own + low && a.priority == b.priority
    ensures a == b
  {
    if a in own && b in own {
      RisingRank(own, a, b);
    } else if a in low && b in low {
      RisingRank(low, a, b);
    }
  }

  lemma RisingRank(records: seq<Record>, a: Record, b: Record)
    requires Rising(records) && a in records && b in records && a.priority == b.priority
    ensures a == b
  {
    var i :| 0 <= i < |records| && records[i] == a;
    var j :| 0 <= j < |records| && records[j] == b;
  }

  /** So whatever may decide is what `Decide` picks. */
  lemma RightByRank(policy: DbusPolicy, uid: u32, q: Request, own: seq<Record>, low: seq<Record>, answer: Option<bool>)
    requires Rising(own) && Rising(low) && forall x, y :: x in own && y in low ==> x.priority > y.priority
    requires EffectiveBatch(policy, uid).Some? && EffectiveBatch(policy, uid).value.Records(q.Kind()) == own + low
    requires VerdictOf(Decide(own + low, Reaching(q))) == answer
    ensures Right(policy, uid, q, answer)
  {
    hide EffectiveBatch, Rising, RecordReaches;
    var records := own + low;
    var decided := Decide(records, Reaching(q));
    forall r | r in records ensures Reaching(q)(Unranked(r)) == RecordReaches(Unranked(r), q) {
    }
    if decided.Some? {
      assert MayDecide(records, q, decided.value);
    }
    forall r | MayDecide(records, q, r) ensures answer == Some(r.verdict) {
      assert decided.Some? by { assert Reaching(q)(Unranked(r)); }
      OneRank(own, low, r, decided.value);
    }
  }

  lemma RankedMeaning(passwd: Passwd, files: seq<Config>, uid: u32, policy: DbusPolicy, q: Request)
    requires Loadable(files)
    requires Compiled(passwd, files) == Ok(policy)
    ensures EffectiveBatch(policy, uid).Some?
    ensures VerdictOf(Decide(EffectiveBatch(policy, uid).value.Records(q.Kind()), Reaching(q))) ==
            Access(passwd, files, uid, q)
  {
    hide *;
    RecordMeaning(passwd, files, uid, policy, q.Kind(), Reaching(q));
    var decided := Decide(EffectiveBatch(policy, uid).value.Records(q.Kind()), Reaching(q));
    VerdictUnranked(decided);
    ExpectedVerdict(passwd, files, uid, q);
  }

  lemma VerdictUnranked(r: Option<Record>)
    ensures VerdictOf(UnrankedOption(r)) == VerdictOf(r)
  {
  }

  lemma ExpectedVerdict(passwd: Passwd, files: seq<Config>, uid: u32, q: Request)
    ensures VerdictOf(Expected(passwd, files, uid, q.Kind(), Reaching(q))) == Access(passwd, files, uid, q)
  {
    LastRecordReaches(OwnRules(passwd, files, uid), q);
    LastRecordReaches(RawDefaults(files), q);
  }
}
