/** What the lowering to per-uid batches produces, and which uids find which batch. */
module WhippetLowering {
  import opened Wrappers
  import opened Decimal
  import opened PolicyModel
  import opened DbusModel

  /** The records of one kind that a list of rules turns into, in order. */
  function RecordsOf(kind: Kind, rules: seq<Rule>): seq<Record> {
    if rules == [] then []
    else if ToRecord(kind, rules[|rules| - 1]).Ok? then
      RecordsOf(kind, rules[..|rules| - 1]) + [ToRecord(kind, rules[|rules| - 1]).value]
    else RecordsOf(kind, rules[..|rules| - 1])
  }

  lemma {:induction false} BatchRecordsOf(rules: seq<Rule>, kind: Kind)
    ensures BatchOf(rules).Records(kind) == RecordsOf(kind, rules)
  {
    if rules != [] {
      BatchRecordsOf(rules[..|rules| - 1], kind);
    }
  }

  lemma {:induction false} BatchConnect(rules: seq<Rule>)
    ensures if HasConnectRule(rules) then
              exists r :: r in rules && IsConnect(r) && r.allow == BatchOf(rules).connectVerdict
                          && r.priority == BatchOf(rules).connectPriority
            else !BatchOf(rules).connectVerdict && BatchOf(rules).connectPriority == 0
  {
    if rules != [] {
      hide ToRecord;
      var front, last := rules[..|rules| - 1], rules[|rules| - 1];
      BatchConnect(front);
      assert rules == front + [last];
      if IsConnect(last) {
        assert last in rules;
      } else {
        assert HasConnectRule(rules) <==> HasConnectRule(front);
      }
    }
  }

  /** Of several connect rules the last one in the context gives the fields. */
  lemma {:induction false} BatchTakesLast(rules: seq<Rule>, i: nat)
    requires i < |rules| && IsConnect(rules[i]) && forall j :: i < j < |rules| ==> !IsConnect(rules[j])
    ensures BatchOf(rules).connectVerdict == rules[i].allow && BatchOf(rules).connectPriority == rules[i].priority
  {
    hide ToRecord;
    if i < |rules| - 1 {
      BatchTakesLast(rules[..|rules| - 1], i);
    }
  }

  /** Every rule of a context goes to the vector of its own kind, in order, and the connect
      fields come from a connect rule of the context, if it has one. */
  lemma BatchShape(rules: seq<Rule>, kind: Kind)
    ensures BatchOf(rules).Records(kind) == RecordsOf(kind, rules)
    ensures if HasConnectRule(rules) then
              exists r :: r in rules && IsConnect(r) && r.allow == BatchOf(rules).connectVerdict
                          && r.priority == BatchOf(rules).connectPriority
            else !BatchOf(rules).connectVerdict && BatchOf(rules).connectPriority == 0
  {
    BatchRecordsOf(rules, kind);
    BatchConnect(rules);
  }

  /** A user's batch has its own connect fields, or the default ones when it has no connect rule. */
  lemma UserConnect(default_: PolicyBatch, rules: seq<Rule>)
    ensures var batch := UserBatch(default_, rules);
            if HasConnectRule(rules) then
              exists r :: r in rules && IsConnect(r) && r.allow == batch.connectVerdict
                          && r.priority == batch.connectPriority
            else batch.connectVerdict == default_.connectVerdict && batch.connectPriority == default_.connectPriority
  {
    BatchConnect(rules);
  }

  lemma DefaultConnect(c: Config)
    ensures var batch, rules := DefaultBatch(c), DefaultRules(c);
            if HasConnectRule(rules) then
              exists r :: r in rules && IsConnect(r) && r.allow == batch.connectVerdict
                          && r.priority == batch.connectPriority
            else !batch.connectVerdict && batch.connectPriority == if c.default.Some? then 0 else 1
  {
    BatchConnect(DefaultRules(c));
  }

  lemma UserBatchShape(default_: PolicyBatch, rules: seq<Rule>, kind: Kind)
    ensures UserBatch(default_, rules).Records(kind) == RecordsOf(kind, rules) + default_.Records(kind)
    ensures var batch := UserBatch(default_, rules);
            if HasConnectRule(rules) then
              exists r :: r in rules && IsConnect(r) && r.allow == batch.connectVerdict
                          && r.priority == batch.connectPriority
            else batch.connectVerdict == default_.connectVerdict && batch.connectPriority == default_.connectPriority
  {
    BatchShape(rules, kind);
  }

  // ------------------------------------------------------------------------------- uid keys

  /** A key that is the printed form of a uid. */
  predicate IsUid(k: string) { ParseU32(k).Some? && Show(ParseU32(k).value) == k }

  predicate UidKeys(u: IndexMap) { u.Entry? ==> IsUid(u.key) && UidKeys(u.front) }

  lemma ShownIsUid(uid: u32)
    ensures IsUid(Show(uid))
  {
    ShowParses(uid);
  }

  lemma {:induction false} ReplaceUidKeys(u: IndexMap, k: string, c: Context)
    requires UidKeys(u) && u.Has(k)
    ensures UidKeys(Replace(u, k, c))
  {
    if u.key != k {
      ReplaceUidKeys(u.front, k, c);
    }
  }

  lemma InsertUidKeys(u: IndexMap, k: string, c: Context)
    requires UidKeys(u) && IsUid(k)
    ensures UidKeys(Insert(u, k, c))
  {
    if u.Has(k) {
      ReplaceUidKeys(u, k, c);
    }
  }

  lemma {:induction false} ResolveUsersUidKeys(passwd: Passwd, u: IndexMap)
    requires ResolveUsers(passwd, u).Ok?
    ensures UidKeys(ResolveUsers(passwd, u).value)
  {
    if u.Entry? {
      ResolveUsersUidKeys(passwd, u.front);
      var uid := Resolve(passwd, u.key).value;
      ShownIsUid(uid);
      InsertUidKeys(ResolveUsers(passwd, u.front).value, Show(uid), u.context);
    }
  }

  predicate UidRules(rules: seq<Rule>) { forall r :: r in rules && IsConnect(r) ==> IsUid(r.user) }

  lemma {:induction false} ResolveRulesUid(passwd: Passwd, rules: seq<Rule>)
    requires ResolveRules(passwd, rules).Ok?
    ensures UidRules(ResolveRules(passwd, rules).value)
  {
    if rules != [] {
      var last := rules[|rules| - 1];
      ResolveRulesUid(passwd, rules[..|rules| - 1]);
      if IsConnect(last) {
        ShownIsUid(Resolve(passwd, last.user).value);
      }
    }
  }

  lemma {:induction false} PopIntoUidKeys(u: IndexMap, moved: seq<Rule>)
    requires UidKeys(u) && UidRules(moved)
    requires forall r :: r in moved ==> IsConnect(r)
    ensures UidKeys(PopInto(u, moved))
    decreases |moved|
  {
    if moved != [] {
      var front, last := moved[..|moved| - 1], moved[|moved| - 1];
      assert last in moved && IsConnect(last);
      InsertUidKeys(u, last.user, Context(u.Get(last.user) + [last]));
      PopIntoUidKeys(Extend(u, last.user, [last]), front);
    }
  }

  lemma {:induction false} OptimizedUidKeys(threshold: u64, u: IndexMap)
    requires UidKeys(u)
    ensures UidKeys(OptimizedUsers(threshold, u))
  {
    if u.Entry? {
      OptimizedUidKeys(threshold, u.front);
    }
  }

  /** After resolving, `prepare` and `optimize` keep all context keys printed uids, so the final
      parse of the keys cannot fail. */
  lemma PipelineUidKeys(passwd: Passwd, c: Config, resolved: Config)
    requires Resolved(passwd, c) == Ok(resolved)
    ensures UidKeys(Users(Optimized(Prepared(resolved))))
  {
    ResolveUsersUidKeys(passwd, Users(c));
    ResolveRulesUid(passwd, DefaultRules(c));
    assert UidRules(DefaultRules(resolved));
    if MovedRules(resolved) != [] {
      assert UidRules(MovedRules(resolved));
      PopIntoUidKeys(Users(resolved), MovedRules(resolved));
    }
    var prepared := Prepared(resolved);
    OptimizedUidKeys(Threshold(DefaultRules(prepared)), Users(prepared));
  }

  // ------------------------------------------------------------------------ finding a batch

  lemma {:induction false} EntryForSnoc(entries: seq<UidEntry>, e: UidEntry, uid: u32)
    ensures EntryFor(entries + [e], uid) ==
            if EntryFor(entries, uid).Some? then EntryFor(entries, uid)
            else if e.uid == uid then Some(e.batch) else None
  {
    if entries != [] {
      assert (entries + [e])[1..] == entries[1..] + [e];
      EntryForSnoc(entries[1..], e, uid);
    }
  }

  lemma {:induction false} EntriesFind(default_: PolicyBatch, u: IndexMap, uid: u32)
    requires UidKeys(u)
    ensures UserEntries(default_, u).Ok?
    ensures EntryFor(UserEntries(default_, u).value, uid) ==
            if u.Has(Show(uid)) then Some(UserBatch(default_, u.Get(Show(uid)))) else None
  {
    if u.Entry? {
      EntriesFind(default_, u.front, uid);
      var owner := ParseU32(u.key).value;
      ShowInjective(owner, uid);
      EntryForSnoc(UserEntries(default_, u.front).value, UidEntry(owner, UserBatch(default_, u.context.rules)), uid);
    }
  }

  /** The batch a uid ends up with: its own context's if that survived, else the default one.
      The wildcard id always finds the default batch, which comes first. */
  lemma BatchFound(c: Config, uid: u32)
    requires UidKeys(Users(c))
    ensures Converted(c).Ok?
    ensures EffectiveBatch(Converted(c).value, uid) ==
            if uid != DEFAULT_USER_ID && Users(c).Has(Show(uid))
            then Some(UserBatch(DefaultBatch(c), Users(c).Get(Show(uid))))
            else Some(DefaultBatch(c))
  {
    EntriesFind(DefaultBatch(c), Users(c), uid);
    var users := UserEntries(DefaultBatch(c), Users(c)).value;
    var entries := [UidEntry(DEFAULT_USER_ID, DefaultBatch(c))] + users;
    assert entries[0].uid == DEFAULT_USER_ID && entries[1..] == users;
  }
}
