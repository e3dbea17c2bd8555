/** The broker's view: per-uid batches of records, and the lowering of a policy to them. */
module DbusModel {
  import opened Wrappers
  import opened Decimal
  import opened PolicyModel

  const DEFAULT_MAX_FDS: u64 := 0xFFFF_FFFF_FFFF_FFFF

  datatype Record =
    | OwnRecord(verdict: bool, priority: u64, prefix: bool, name: string)
    | SendRecord(verdict: bool, priority: u64, name: string, path: string, interface: string, member: string,
                 recordType: MessageType, broadcast: u32, minFds: u64, maxFds: u64)
    | ReceiveRecord(verdict: bool, priority: u64, name: string, path: string, interface: string, member: string,
                    recordType: MessageType, broadcast: u32, minFds: u64, maxFds: u64)

  datatype Kind = OwnKind | SendKind | ReceiveKind

  datatype PolicyBatch = PolicyBatch(
    connectVerdict: bool,
    connectPriority: u64,
    ownRules: seq<Record>,
    sendRules: seq<Record>,
    receiveRules: seq<Record>)
  {
    function Records(kind: Kind): seq<Record> {
      match kind
      case OwnKind => ownRules
      case SendKind => sendRules
      case ReceiveKind => receiveRules
    }

    /** `copy_rules_from` */
    function CopyRulesFrom(source: PolicyBatch): PolicyBatch {
      this.(ownRules := ownRules + source.ownRules,
            sendRules := sendRules + source.sendRules,
            receiveRules := receiveRules + source.receiveRules)
    }
  }

  const NO_RULES: PolicyBatch := PolicyBatch(false, 0, [], [], [])

  datatype UidEntry = UidEntry(uid: u32, batch: PolicyBatch)

  datatype DbusPolicy = DbusPolicy(
    uidEntries: seq<UidEntry>,
    consoleEntries: seq<(bool, u32, u32, PolicyBatch)>,
    selinuxContexts: seq<(string, string)>,
    apparmorEnabled: bool,
    busType: string)

  const NEW_DBUS_POLICY: DbusPolicy := DbusPolicy([], [], [], false, "system")

  /** Wildcards are written as the empty string. */
  function Unwild(s: string): string { if s == "*" then "" else s }

  /** The record conversions; a rule of another kind has no such record. */
  function ToRecord(kind: Kind, r: Rule): Result<Record, Error> {
    match kind
    case OwnKind =>
      if r.Own? then Ok(OwnRecord(r.allow, r.priority, r.own == "*", Unwild(r.own))) else Err(RuleToRecord)
    case SendKind =>
      if r.Send? then
        Ok(SendRecord(r.allow, r.priority, Unwild(r.name), Unwild(r.path), Unwild(r.interface), Unwild(r.member),
                      r.messageType, r.broadcast, 0, DEFAULT_MAX_FDS))
      else Err(RuleToRecord)
    case ReceiveKind =>
      if r.Receive? then
        Ok(ReceiveRecord(r.allow, r.priority, Unwild(r.name), Unwild(r.path), Unwild(r.interface), Unwild(r.member),
                         r.messageType, r.broadcast, 0, DEFAULT_MAX_FDS))
      else Err(RuleToRecord)
  }

  /** One turn of the loop that fills a batch. */
  function AddRule(b: PolicyBatch, r: Rule): PolicyBatch {
    match r
    case ConnectUser(allow, _, priority) => b.(connectVerdict := allow, connectPriority := priority)
    case Own(_, _, _) => b.(ownRules := b.ownRules + [ToRecord(OwnKind, r).value])
    case Send(_, _, _, _, _, _, _, _) => b.(sendRules := b.sendRules + [ToRecord(SendKind, r).value])
    case Receive(_, _, _, _, _, _, _, _) => b.(receiveRules := b.receiveRules + [ToRecord(ReceiveKind, r).value])
  }

  function BatchOf(rules: seq<Rule>): PolicyBatch {
    if rules == [] then NO_RULES else AddRule(BatchOf(rules[..|rules| - 1]), rules[|rules| - 1])
  }

  function DefaultBatch(c: Config): PolicyBatch {
    if c.default.Some? then BatchOf(c.default.value.rules) else NO_RULES.(connectPriority := 1)
  }

  predicate HasConnectRule(rules: seq<Rule>) { exists r :: r in rules && IsConnect(r) }

  /** A user's batch: its own rules, then the default ones, with the default connect verdict
      when the context has no connect rule. */
  function UserBatch(default_: PolicyBatch, rules: seq<Rule>): PolicyBatch {
    var own := BatchOf(rules);
    var withConnect :=
      if HasConnectRule(rules) then own
      else own.(connectVerdict := default_.connectVerdict, connectPriority := default_.connectPriority);
    withConnect.CopyRulesFrom(default_)
  }

  function UserEntries(default_: PolicyBatch, u: IndexMap): Result<seq<UidEntry>, Error> {
    if u.Empty? then Ok([])
    else
      var front :- UserEntries(default_, u.front);
      match ParseU32(u.key)
      case None => Err(ParseUid(u.key))
      case Some(uid) => Ok(front + [UidEntry(uid, UserBatch(default_, u.context.rules))])
  }

  function Converted(c: Config): Result<DbusPolicy, Error> {
    var default_ := DefaultBatch(c);
    var users :- UserEntries(default_, Users(c));
    Ok(NEW_DBUS_POLICY.(uidEntries := [UidEntry(DEFAULT_USER_ID, default_)] + users))
  }

  /** The whole compiler, as `main` runs it. */
  function Compiled(passwd: Passwd, files: seq<Config>): Result<DbusPolicy, Error> {
    var loaded := Loaded(files);
    var _ :- Validated(loaded);
    var resolved :- Resolved(passwd, loaded);
    Converted(Optimized(Prepared(resolved)))
  }

  // --------------------------------------------------- how the broker reads a lowered policy

  /** The first entry for a uid, if any. */
  function EntryFor(entries: seq<UidEntry>, uid: u32): (r: Option<PolicyBatch>)
    ensures r.Some? ==> UidEntry(uid, r.value) in entries
    ensures r.None? ==> forall e :: e in entries ==> e.uid != uid
  {
    if entries == [] then None
    else if entries[0].uid == uid then Some(entries[0].batch)
    else EntryFor(entries[1..], uid)
  }

  /** A uid without an entry uses the wildcard entry. */
  function EffectiveBatch(p: DbusPolicy, uid: u32): Option<PolicyBatch> {
    match EntryFor(p.uidEntries, uid)
    case Some(b) => Some(b)
    case None => EntryFor(p.uidEntries, DEFAULT_USER_ID)
  }

  /** What a broker's match may look at: everything but the priority. */
  function Unranked(r: Record): Record { r.(priority := 0) }

  /** The matching record with the highest priority. */
  function Decide(records: seq<Record>, matches: Record -> bool): (r: Option<Record>)
    ensures r.None? ==> forall q :: q in records ==> !matches(Unranked(q))
    ensures r.Some? ==>
              && r.value in records && matches(Unranked(r.value))
              && forall q :: q in records && matches(Unranked(q)) ==> q.priority <= r.value.priority
  {
    if records == [] then None
    else
      var last := records[|records| - 1];
      var front := records[..|records| - 1];
      assert records == front + [last];
      var best := Decide(front, matches);
      if matches(Unranked(last)) && (best.None? || best.value.priority <= last.priority) then Some(last) else best
  }
}
