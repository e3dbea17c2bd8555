/** Loading described without files, contexts or passes: all rules of a run are written down in the
    order in which they are met, and the rule at position i gets the number 3 + i in the band of its
    context. */
module WhippetNumbering {
  import opened Wrappers
  import opened PolicyModel
  import opened WhippetLoad

  /** A rule as it is met, and where it belongs. */
  datatype Turn = Turn(place: Place, rule: Rule)

  function TurnsAt(place: Place, rules: seq<Rule>): seq<Turn> {
    if rules == [] then [] else TurnsAt(place, rules[..|rules| - 1]) + [Turn(place, rules[|rules| - 1])]
  }

  function UserTurns(u: IndexMap): seq<Turn> {
    if u.Empty? then [] else UserTurns(u.front) + TurnsAt(InUser(u.key), u.context.rules)
  }

  /** Of a file, the user contexts come before the default context. */
  function FileTurns(c: Config): seq<Turn> { UserTurns(Users(c)) + TurnsAt(InDefault, DefaultRules(c)) }

  function RunTurns(files: seq<Config>): seq<Turn> {
    if files == [] then [] else RunTurns(files[..|files| - 1]) + FileTurns(files[|files| - 1])
  }

  /** One seventh of the numbers below the user contexts, three sevenths for them. */
  function Band(place: Place): nat {
    if place.InDefault? then 0xFFFF_FFFF_FFFF_FFFF / 7 else 3 * (0xFFFF_FFFF_FFFF_FFFF / 7)
  }

  function Numbered(turns: seq<Turn>, first: nat): (r: seq<Turn>)
    ensures |r| == |turns|
  {
    if turns == [] then []
    else
      var n := |turns| - 1;
      Numbered(turns[..n], first)
      + [Turn(turns[n].place, SetPriority(turns[n].rule, Wrap(Band(turns[n].place) + first + n)))]
  }

  /** The rules of one place, in order. */
  function OfPlace(turns: seq<Turn>, place: Place): seq<Rule> {
    if turns == [] then []
    else
      OfPlace(turns[..|turns| - 1], place)
      + if turns[|turns| - 1].place == place then [turns[|turns| - 1].rule] else []
  }

  lemma {:induction false} NumberedConcat(a: seq<Turn>, b: seq<Turn>, first: nat)
    ensures Numbered(a + b, first) == Numbered(a, first) + Numbered(b, first + |a|)
  {
    if b == [] {
      assert a + b == a;
    } else {
      var n := |b| - 1;
      assert (a + b)[..|a + b| - 1] == a + b[..n];
      NumberedConcat(a, b[..n], first);
    }
  }

  lemma {:induction false} OfPlaceConcat(a: seq<Turn>, b: seq<Turn>, place: Place)
    ensures OfPlace(a + b, place) == OfPlace(a, place) + OfPlace(b, place)
  {
    if b == [] {
      assert a + b == a;
    } else {
      assert (a + b)[..|a + b| - 1] == a + b[..|b| - 1];
      OfPlaceConcat(a, b[..|b| - 1], place);
    }
  }

  lemma {:induction false} TurnsStamped(place: Place, rules: seq<Rule>, first: nat, other: Place)
    ensures |TurnsAt(place, rules)| == |rules|
    ensures OfPlace(Numbered(TurnsAt(place, rules), first), other) ==
            if other == place then Stamp(rules, Base(place), first) else []
  {
    if rules != [] {
      var n := |rules| - 1;
      TurnsStamped(place, rules[..n], first, other);
      SameBand(place);
      var turns, front := TurnsAt(place, rules), TurnsAt(place, rules[..n]);
      assert turns[..n] == front;
      var numbered := Numbered(turns, first);
      assert numbered[..n] == Numbered(front, first);
    }
  }

  function Base(place: Place): nat { if place.InDefault? then DEFAULT_BASE else USER_BASE }

  lemma SameBand(place: Place)
    ensures Band(place) == Base(place)
  {
  }

  lemma StampedLast(u: IndexMap, first: nat, name: string)
    requires u.Entry?
    ensures StampUsers(u, first).Get(name) ==
            if name == u.key then Stamp(u.context.rules, USER_BASE, first + RuleCount(u.front))
            else StampUsers(u.front, first).Get(name)
    ensures name == u.key ==> StampUsers(u.front, first).Get(name) == []
  {
    hide Stamp;
    if name == u.key {
      AbsentGet(StampUsers(u.front, first), name);
    }
  }

  lemma {:induction false} UserTurnsCount(u: IndexMap)
    ensures |UserTurns(u)| == RuleCount(u)
  {
    if u.Entry? {
      UserTurnsCount(u.front);
      TurnsStamped(InUser(u.key), u.context.rules, 0, InDefault);
    }
  }

  /** The rules of a user context, or none for the default context. */
  function UserRulesAt(u: IndexMap, place: Place): seq<Rule> {
    if place.InUser? then u.Get(place.name) else []
  }

  lemma LastContext(u: IndexMap, first: nat, place: Place, met: seq<Rule>, added: seq<Rule>)
    requires u.Entry? && met == UserRulesAt(StampUsers(u.front, first), place)
    requires added == if place == InUser(u.key) then Stamp(u.context.rules, USER_BASE, first + RuleCount(u.front)) else []
    ensures UserRulesAt(StampUsers(u, first), place) == met + added
  {
    hide Stamp, StampUsers;
    if place.InUser? {
      StampedLast(u, first, place.name);
    }
  }

  lemma NoContexts(first: nat, place: Place)
    ensures OfPlace(Numbered(UserTurns(Empty), first), place) == UserRulesAt(StampUsers(Empty, first), place)
  {
  }

  lemma LastTurns(u: IndexMap)
    requires u.Entry?
    ensures UserTurns(u) == UserTurns(u.front) + TurnsAt(InUser(u.key), u.context.rules)
    ensures Base(InUser(u.key)) == USER_BASE
  {
  }

  lemma {:induction false} UsersStamped(u: IndexMap, first: nat, place: Place)
    ensures OfPlace(Numbered(UserTurns(u), first), place) == UserRulesAt(StampUsers(u, first), place)
  {
    hide Numbered, OfPlace, TurnsAt, Stamp, StampUsers, UserRulesAt, RuleCount, UserTurns, Base;
    if u.Empty? {
      NoContexts(first, place);
    } else {
      var front, own := UserTurns(u.front), TurnsAt(InUser(u.key), u.context.rules);
      UsersStamped(u.front, first, place);
      UserTurnsCount(u.front);
      LastTurns(u);
      TurnsStamped(InUser(u.key), u.context.rules, first + |front|, place);
      NumberedConcat(front, own, first);
      OfPlaceConcat(Numbered(front, first), Numbered(own, first + |front|), place);
      LastContext(u, first, place, OfPlace(Numbered(front, first), place),
                  OfPlace(Numbered(own, first + |front|), place));
    }
  }

  lemma FileStamped(c: Config, first: nat, place: Place)
    ensures |FileTurns(c)| == ConfigRuleCount(c)
    ensures OfPlace(Numbered(FileTurns(c), first), place) == RulesAt(Stamped(c, first), place)
  {
    hide Numbered, OfPlace, UserTurns, TurnsAt, Stamp, StampUsers;
    var users, own := UserTurns(Users(c)), TurnsAt(InDefault, DefaultRules(c));
    UsersStamped(Users(c), first, place);
    UserTurnsCount(Users(c));
    TurnsStamped(InDefault, DefaultRules(c), first + |users|, place);
    NumberedConcat(users, own, first);
    OfPlaceConcat(Numbered(users, first), Numbered(own, first + |users|), place);
    NothingStamped(place, first);
  }

  lemma NothingStamped(place: Place, first: nat)
    ensures Stamp([], Base(place), first) == [] && StampUsers(Empty, first) == Empty
    ensures forall name :: EntryList.Empty.Get(name) == []
  {
  }

  lemma MergedAt(base: Config, file: Config, place: Place)
    ensures RulesAt(Merged(base, file), place) == RulesAt(base, place) + RulesAt(file, place)
  {
    if place.InUser? {
      MergeGet(Users(base), Users(file), place.name);
    }
  }

  /** For every run of files and every context: loading leaves there the rules met for it, in order,
      each with its number. */
  lemma {:induction false} LoadingNumbers(files: seq<Config>, place: Place)
    ensures |RunTurns(files)| == TotalRules(files)
    ensures RulesAt(Loaded(files), place) == OfPlace(Numbered(RunTurns(files), 3), place)
  {
    if files == [] {
      assert Loaded(files) == Config(None, None);
    } else {
      hide Numbered, OfPlace, FileTurns, RulesAt, Merged, Stamped;
      var before, file := files[..|files| - 1], files[|files| - 1];
      var first := 3 + TotalRules(before);
      LoadingNumbers(before, place);
      LastLoaded(files);
      MergedAt(Loaded(before), Stamped(file, first), place);
      FileStamped(file, first, place);
      NumberedConcat(RunTurns(before), FileTurns(file), 3);
      OfPlaceConcat(Numbered(RunTurns(before), 3), Numbered(FileTurns(file), first), place);
    }
  }
}
