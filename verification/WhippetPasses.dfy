/** What `prepare` and `optimize` do to a policy, for every policy: which rules move or go,
    what stays as it was, and which connect rule wins before and after. */
module WhippetPasses {
  import opened PolicyModel

  function Reverse(s: seq<Rule>): seq<Rule> {
    if s == [] then [] else [s[|s| - 1]] + Reverse(s[..|s| - 1])
  }

  lemma ReverseSnoc(s: seq<Rule>, r: Rule)
    ensures Reverse(s + [r]) == [r] + Reverse(s)
  {
    assert (s + [r])[..|s|] == s;
  }

  // ---------------------------------------------------------------------- facts on filtering

  lemma {:induction false} FilterNone(s: seq<Rule>, p: Rule -> bool)
    requires forall r :: r in s ==> !p(r)
    ensures Filter(s, p) == []
  {
    if s != [] {
      assert s[|s| - 1] in s;
      FilterNone(s[..|s| - 1], p);
    }
  }

  lemma {:induction false} FilterAll(s: seq<Rule>, p: Rule -> bool)
    requires forall r :: r in s ==> p(r)
    ensures Filter(s, p) == s
  {
    if s != [] {
      assert s[|s| - 1] in s;
      FilterAll(s[..|s| - 1], p);
    }
  }

  lemma {:induction false} FilterConcat(a: seq<Rule>, b: seq<Rule>, p: Rule -> bool)
    ensures Filter(a + b, p) == Filter(a, p) + Filter(b, p)
  {
    if b == [] {
      assert a + b == a;
    } else {
      assert (a + b)[..|a + b| - 1] == a + b[..|b| - 1];
      FilterConcat(a, b[..|b| - 1], p);
    }
  }

  /** Filtering twice is filtering once by the stronger test. */
  lemma {:induction false} FilterFilter(s: seq<Rule>, p: Rule -> bool, q: Rule -> bool, both: Rule -> bool)
    requires forall r :: both(r) <==> p(r) && q(r)
    ensures Filter(Filter(s, p), q) == Filter(s, both)
  {
    if s != [] {
      var front, last := s[..|s| - 1], s[|s| - 1];
      FilterFilter(front, p, q, both);
      FilterConcat(Filter(front, p), if p(last) then [last] else [], q);
    }
  }

  lemma FilterSnoc(front: seq<Rule>, last: Rule, p: Rule -> bool)
    ensures multiset(Filter(front + [last], p)) ==
            multiset(Filter(front, p)) + (if p(last) then multiset{last} else multiset{})
  {
    assert (front + [last])[..|front|] == front;
    MultisetSnoc(Filter(front, p), last);
  }

  lemma {:induction false} FilterSplits(s: seq<Rule>, p: Rule -> bool, notP: Rule -> bool)
    requires forall r :: notP(r) <==> !p(r)
    ensures multiset(Filter(s, p)) + multiset(Filter(s, notP)) == multiset(s)
  {
    if s != [] {
      hide Filter;
      var front, last := s[..|s| - 1], s[|s| - 1];
      assert s == front + [last];
      FilterSplits(front, p, notP);
      FilterSnoc(front, last, p);
      FilterSnoc(front, last, notP);
      MultisetSnoc(front, last);
    }
  }

  lemma MultisetSnoc(s: seq<Rule>, r: Rule)
    ensures multiset(s + [r]) == multiset(s) + multiset{r}
  {
  }

  lemma {:induction false} ReverseMembers(s: seq<Rule>)
    ensures forall r :: r in Reverse(s) <==> r in s
  {
    if s != [] {
      ReverseMembers(s[..|s| - 1]);
      assert s == s[..|s| - 1] + [s[|s| - 1]];
    }
  }

  // -------------------------------------------------------------------------------- prepare

  function NamedBy(k: string): Rule -> bool { (r: Rule) => IsConnect(r) && r.user == k }

  function MovesTo(k: string): Rule -> bool { (r: Rule) => Movable(r) && r.user == k }

  lemma PoppedFirst(moved: seq<Rule>, k: string, front: seq<Rule>, last: Rule)
    requires moved == front + [last]
    ensures Reverse(Filter(moved, NamedBy(k))) ==
            if NamedBy(k)(last) then [last] + Reverse(Filter(front, NamedBy(k)))
            else Reverse(Filter(front, NamedBy(k)))
  {
    assert moved[..|moved| - 1] == front;
    ReverseSnoc(Filter(front, NamedBy(k)), last);
  }

  lemma PushGet(u: IndexMap, r: Rule, k: string, rest: seq<Rule>)
    requires IsConnect(r)
    ensures Extend(u, r.user, [r]).Get(k) + rest == u.Get(k) + (if r.user == k then [r] + rest else rest)
  {
    InsertGet(u, r.user, Context(u.Get(r.user) + [r]), k);
  }

  lemma {:induction false} PopIntoGet(u: IndexMap, moved: seq<Rule>, k: string)
    requires forall r :: r in moved ==> IsConnect(r)
    ensures PopInto(u, moved).Get(k) == u.Get(k) + Reverse(Filter(moved, NamedBy(k)))
    decreases |moved|
  {
    if moved != [] {
      var front, last := moved[..|moved| - 1], moved[|moved| - 1];
      assert last in moved && IsConnect(last);
      PopIntoGet(Extend(u, last.user, [last]), front, k);
      PushGet(u, last, k, Reverse(Filter(front, NamedBy(k))));
      PoppedFirst(moved, k, front, last);
    }
  }

  /** For every policy: the default context keeps, in order, all but the connect rules of named
      users; each of those lands behind the old rules of its own user, newest first. */
  lemma PrepareMoves(c: Config, k: string)
    ensures DefaultRules(Prepared(c)) == Filter(DefaultRules(c), Stays)
    ensures Users(Prepared(c)).Get(k) == Users(c).Get(k) + Reverse(Filter(DefaultRules(c), MovesTo(k)))
  {
    var rules := DefaultRules(c);
    FilterMembers(rules, Movable);
    FilterFilter(rules, Movable, NamedBy(k), MovesTo(k));
    if MovedRules(c) == [] {
      FilterAll(rules, Stays) by {
        forall r | r in rules ensures Stays(r) { assert r !in MovedRules(c); }
      }
    } else {
      PopIntoGet(Users(c), MovedRules(c), k);
    }
  }

  function UserRules(u: IndexMap): multiset<Rule> {
    if u.Empty? then multiset{} else UserRules(u.front) + multiset(u.context.rules)
  }

  /** Every rule of a policy, with its multiplicity. */
  function AllRules(c: Config): multiset<Rule> { multiset(DefaultRules(c)) + UserRules(Users(c)) }

  lemma {:induction false} ReplaceRules(u: IndexMap, k: string, rules: seq<Rule>)
    requires u.Has(k)
    ensures UserRules(Replace(u, k, Context(u.Get(k) + rules))) == UserRules(u) + multiset(rules)
  {
    if u.key != k {
      ReplaceRules(u.front, k, rules);
    }
  }

  lemma ExtendRules(u: IndexMap, k: string, rules: seq<Rule>)
    ensures UserRules(Extend(u, k, rules)) == UserRules(u) + multiset(rules)
  {
    if u.Has(k) {
      ReplaceRules(u, k, rules);
    } else {
      AbsentGet(u, k);
    }
  }

  lemma {:induction false} PopIntoRules(u: IndexMap, moved: seq<Rule>)
    requires forall r :: r in moved ==> IsConnect(r)
    ensures UserRules(PopInto(u, moved)) == UserRules(u) + multiset(moved)
    decreases |moved|
  {
    if moved != [] {
      var front, last := moved[..|moved| - 1], moved[|moved| - 1];
      assert last in moved && IsConnect(last);
      assert moved == front + [last];
      ExtendRules(u, last.user, [last]);
      PopIntoRules(Extend(u, last.user, [last]), front);
    }
  }

  /** `prepare` neither loses nor duplicates a rule. */
  lemma PrepareConserves(c: Config)
    ensures AllRules(Prepared(c)) == AllRules(c)
  {
    FilterSplits(DefaultRules(c), Movable, Stays);
    if MovedRules(c) != [] {
      PopIntoRules(Users(c), MovedRules(c));
    }
  }

  // -------------------------------------------------------------- which connect rule decides

  /** The connect rules that speak about the user written as k. */
  ghost function Speaking(c: Config, k: string): set<Rule> {
    (set r | r in DefaultRules(c) && IsConnect(r) && (r.user == k || r.user == WILDCARD))
    + (set r | r in Users(c).Get(k) && IsConnect(r))
  }

  /** The verdict of the highest-priority rule, refusal when no rule speaks. */
  ghost predicate Wins(rules: set<Rule>, verdict: bool) {
    if rules == {} then !verdict
    else exists r ::
        && r in rules && IsConnect(r) && r.allow == verdict
        && forall q :: q in rules ==> q.priority <= r.priority
  }

  /** The verdict and the priority of a highest-priority rule. */
  ghost predicate WinsAt(rules: set<Rule>, verdict: bool, priority: u64) {
    exists r ::
      && r in rules && IsConnect(r) && r.allow == verdict && r.priority == priority
      && forall q :: q in rules ==> q.priority <= r.priority
  }

  /** Moving rules to user contexts changes no user's set of deciding rules. */
  lemma PrepareKeepsSpeaking(c: Config, k: string)
    ensures Speaking(Prepared(c), k) == Speaking(c, k)
  {
    var rules := DefaultRules(c);
    PrepareMoves(c, k);
    FilterMembers(rules, Stays);
    FilterMembers(rules, MovesTo(k));
    ReverseMembers(Filter(rules, MovesTo(k)));
    forall r
      ensures r in Speaking(Prepared(c), k) <==> r in Speaking(c, k)
    {
      assert r in Users(Prepared(c)).Get(k) <==>
             r in Users(c).Get(k) || r in Reverse(Filter(rules, MovesTo(k)));
    }
  }

  // ------------------------------------------------------------------------------- optimize

  lemma {:induction false} OptimizedGet(threshold: u64, u: IndexMap, k: string)
    ensures OptimizedUsers(threshold, u).Get(k) == CleanedUser(threshold, u.Get(k))
  {
    if u.Entry? {
      OptimizedGet(threshold, u.front, k);
      if k == u.key {
        AbsentGet(OptimizedUsers(threshold, u.front), k);
      }
    }
  }

  /** Rules other than connect rules are untouched, in order. */
  lemma CleaningKeepsOthers(threshold: u64, rules: seq<Rule>, p: Rule -> bool)
    requires forall r :: p(r) ==> !IsConnect(r)
    ensures Filter(Filter(rules, Survives(threshold)), p) == Filter(rules, p)
  {
    FilterFilter(rules, Survives(threshold), p, p);
  }

  predicate DistinctPriorities(rules: seq<Rule>) {
    forall i, j :: 0 <= i < j < |rules| ==> rules[i].priority != rules[j].priority
  }

  lemma {:induction false} AtMostOneConnect(threshold: u64, rules: seq<Rule>)
    requires DistinctPriorities(rules)
    ensures |Filter(Filter(rules, Survives(threshold)), IsConnect)| <= 1
  {
    var both := (r: Rule) => IsConnect(r) && r.priority == threshold;
    FilterFilter(rules, Survives(threshold), IsConnect, both);
    if rules != [] {
      var front, last := rules[..|rules| - 1], rules[|rules| - 1];
      AtMostOneConnect(threshold, front);
      FilterFilter(front, Survives(threshold), IsConnect, both);
      if both(last) {
        forall r | r in front ensures !both(r) {
          var i :| 0 <= i < |front| && front[i] == r;
          assert rules[i] == r;
        }
        FilterNone(front, both);
      }
    }
  }

  /** With distinct priorities every context keeps at most one connect rule. */
  lemma OptimizeLeavesOneConnect(c: Config, k: string)
    requires DistinctPriorities(DefaultRules(c)) && DistinctPriorities(Users(c).Get(k))
    ensures |Filter(DefaultRules(Optimized(c)), IsConnect)| <= 1
    ensures |Filter(Users(Optimized(c)).Get(k), IsConnect)| <= 1
  {
    var t := Threshold(DefaultRules(c));
    AtMostOneConnect(t, DefaultRules(c));
    var rules := Users(c).Get(k);
    OptimizedGet(t, Users(c), k);
    AtMostOneConnect(if t > Threshold(rules) then t else Threshold(rules), rules);
  }

  /** A user context keeps connect rules only at its own maximum, and only if no default
      connect rule is above it. */
  lemma OptimizeKeepsOnlyWinners(c: Config, k: string, r: Rule)
    requires IsConnect(r)
    requires r in Users(Optimized(c)).Get(k)
    ensures r in Users(c).Get(k)
    ensures forall q :: q in Users(c).Get(k) && IsConnect(q) ==> q.priority <= r.priority
    ensures forall q :: q in DefaultRules(c) && IsConnect(q) ==> q.priority <= r.priority
  {
    var t := Threshold(DefaultRules(c));
    var rules := Users(c).Get(k);
    OptimizedGet(t, Users(c), k);
    FilterMembers(rules, Survives(if t > Threshold(rules) then t else Threshold(rules)));
  }

  lemma ThresholdOf(rules: seq<Rule>, t: u64)
    requires forall r :: r in rules && IsConnect(r) ==> r.priority == t
    requires t == 0 || exists r :: r in rules && IsConnect(r)
    ensures Threshold(rules) == t
  {
  }

  lemma CleanedTwice(threshold: u64, rules: seq<Rule>)
    ensures CleanedUser(threshold, CleanedUser(threshold, rules)) == CleanedUser(threshold, rules)
  {
    var own := Threshold(rules);
    var t := if threshold > own then threshold else own;
    var cleaned := CleanedUser(threshold, rules);
    FilterMembers(rules, Survives(t));
    FilterAll(cleaned, Survives(t));
    if t == own {
      if t != 0 {
        var r :| r in rules && IsConnect(r) && r.priority == t;
        assert r in cleaned;
      }
      ThresholdOf(cleaned, t);
    } else {
      ThresholdOf(cleaned, 0);
    }
  }

  lemma {:induction false} OptimizedUsersTwice(threshold: u64, u: IndexMap)
    ensures OptimizedUsers(threshold, OptimizedUsers(threshold, u)) == OptimizedUsers(threshold, u)
  {
    if u.Entry? {
      OptimizedUsersTwice(threshold, u.front);
      CleanedTwice(threshold, u.context.rules);
    }
  }

  /** Optimizing an optimized policy changes nothing, for every policy. */
  lemma OptimizeIdempotent(c: Config)
    ensures Optimized(Optimized(c)) == Optimized(c)
  {
    var rules := DefaultRules(c);
    var t := Threshold(rules);
    var cleaned := Filter(rules, Survives(t));
    FilterMembers(rules, Survives(t));
    FilterAll(cleaned, Survives(t));
    if t != 0 {
      var r :| r in rules && IsConnect(r) && r.priority == t;
      assert r in cleaned;
    }
    ThresholdOf(cleaned, t);
    OptimizedUsersTwice(t, Users(c));
  }

  ghost predicate PositiveConnects(rules: seq<Rule>) {
    forall r :: r in rules && IsConnect(r) ==> r.priority > 0
  }

  /** A default rule is left without a rival only if it was above all the user's rules. */
  lemma DefaultKeepsWinner(c: Config, k: string, r: Rule)
    requires IsConnect(r) && r in DefaultRules(Optimized(c))
    requires forall q :: q in Users(Optimized(c)).Get(k) ==> !IsConnect(q)
    ensures r in DefaultRules(c)
    ensures forall q :: q in DefaultRules(c) && IsConnect(q) ==> q.priority <= r.priority
    ensures forall q :: q in Users(c).Get(k) && IsConnect(q) ==> q.priority <= r.priority
  {
    var t, rules := Threshold(DefaultRules(c)), Users(c).Get(k);
    OptimizedGet(t, Users(c), k);
    FilterMembers(DefaultRules(c), Survives(t));
    FilterMembers(rules, Survives(Threshold(rules)));
    assert Threshold(rules) <= t;
  }

  /** The connect rules a cleaned context and the cleaned default context still hold decide as
      all of them did: a surviving rule of either kind is a highest one. */
  lemma SurvivorWins(c: Config, k: string, r: Rule)
    requires forall q :: q in DefaultRules(c) && IsConnect(q) ==> q.user == WILDCARD
    requires IsConnect(r)
    requires r in Users(Optimized(c)).Get(k)
          || (r in DefaultRules(Optimized(c)) && forall q :: q in Users(Optimized(c)).Get(k) ==> !IsConnect(q))
    ensures Wins(Speaking(c, k), r.allow) && WinsAt(Speaking(c, k), r.allow, r.priority)
  {
    if r in Users(Optimized(c)).Get(k) {
      OptimizeKeepsOnlyWinners(c, k, r);
    } else {
      DefaultKeepsWinner(c, k, r);
    }
    hide Optimized;
    assert r in Speaking(c, k);
  }

  /** When neither context keeps a connect rule, none spoke about the user. */
  lemma NoSurvivorNoRule(c: Config, k: string)
    requires PositiveConnects(DefaultRules(c)) && PositiveConnects(Users(c).Get(k))
    requires forall r :: r in DefaultRules(Optimized(c)) ==> !IsConnect(r)
    requires forall r :: r in Users(Optimized(c)).Get(k) ==> !IsConnect(r)
    ensures Speaking(c, k) == {}
  {
    var t := Threshold(DefaultRules(c));
    var rules := Users(c).Get(k);
    FilterMembers(DefaultRules(c), Survives(t));
    assert t == 0;
    OptimizedGet(t, Users(c), k);
    FilterMembers(rules, Survives(Threshold(rules)));
    assert Threshold(rules) == 0;
  }

  /** Every context keeps its own, send and receive rules, in order. */
  lemma OptimizeKeepsOtherRules(c: Config, k: string, p: Rule -> bool)
    requires forall r :: p(r) ==> !IsConnect(r)
    ensures Filter(DefaultRules(Optimized(c)), p) == Filter(DefaultRules(c), p)
    ensures Filter(Users(Optimized(c)).Get(k), p) == Filter(Users(c).Get(k), p)
  {
    var t, rules := Threshold(DefaultRules(c)), Users(c).Get(k);
    OptimizedGet(t, Users(c), k);
    CleaningKeepsOthers(t, DefaultRules(c), p);
    CleaningKeepsOthers(if t > Threshold(rules) then t else Threshold(rules), rules, p);
  }

  ghost predicate DistinctRanks(rules: set<Rule>) {
    forall r, q :: r in rules && q in rules && r.priority == q.priority ==> r == q
  }

  lemma OneWinner(rules: set<Rule>, a: bool, b: bool)
    requires DistinctRanks(rules) && Wins(rules, a) && Wins(rules, b)
    ensures a == b
  {
  }

  /** Every set of connect rules has a winner. */
  lemma {:induction false} SomeWinner(rules: set<Rule>) returns (verdict: bool)
    requires forall r :: r in rules ==> IsConnect(r)
    ensures Wins(rules, verdict)
  {
    if rules == {} {
      verdict := false;
    } else {
      var r :| r in rules;
      var rest := rules - {r};
      if rest == {} {
        assert rules == {r};
        verdict := r.allow;
      } else {
        var other := SomeWinner(rest);
        var q :| q in rest && IsConnect(q) && q.allow == other && forall x :: x in rest ==> x.priority <= q.priority;
        verdict := if q.priority <= r.priority then r.allow else q.allow;
        if q.priority <= r.priority {
          assert forall x :: x in rules ==> x == r || x in rest;
        } else {
          assert q in rules;
        }
      }
    }
  }

  /** The winner after optimizing won before. */
  lemma OptimizedWinnerWon(c: Config, k: string, verdict: bool)
    requires forall q :: q in DefaultRules(c) && IsConnect(q) ==> q.user == WILDCARD
    requires PositiveConnects(DefaultRules(c)) && PositiveConnects(Users(c).Get(k))
    requires Wins(Speaking(Optimized(c), k), verdict)
    ensures Wins(Speaking(c, k), verdict)
  {
    var t, o := Threshold(DefaultRules(c)), Optimized(c);
    FilterMembers(DefaultRules(c), Survives(t));
    if Speaking(o, k) == {} {
      forall r | r in DefaultRules(o) ensures !IsConnect(r) {
        assert r !in Speaking(o, k);
      }
      forall r | r in Users(o).Get(k) ensures !IsConnect(r) {
        assert r !in Speaking(o, k);
      }
      NoSurvivorNoRule(c, k);
    } else {
      var r :| r in Speaking(o, k) && IsConnect(r) && r.allow == verdict
               && forall q :: q in Speaking(o, k) ==> q.priority <= r.priority;
      if q :| q in Users(o).Get(k) && IsConnect(q) {
        assert q in Speaking(o, k);
        OptimizeKeepsOnlyWinners(c, k, q);
        if r in Users(o).Get(k) {
          OptimizeKeepsOnlyWinners(c, k, r);
        }
        assert r in Speaking(c, k);
      } else {
        SurvivorWins(c, k, r);
      }
    }
  }

  /** On a prepared policy with distinct positive priorities, optimizing changes no user's
      verdict. */
  lemma OptimizeKeepsVerdict(c: Config, k: string, verdict: bool)
    requires forall q :: q in DefaultRules(c) && IsConnect(q) ==> q.user == WILDCARD
    requires PositiveConnects(DefaultRules(c)) && PositiveConnects(Users(c).Get(k))
    requires DistinctRanks(Speaking(c, k))
    ensures Wins(Speaking(Optimized(c), k), verdict) <==> Wins(Speaking(c, k), verdict)
  {
    var after := SomeWinner(Speaking(Optimized(c), k));
    OptimizedWinnerWon(c, k, after);
    if Wins(Speaking(c, k), verdict) {
      OneWinner(Speaking(c, k), after, verdict);
    }
    if Wins(Speaking(Optimized(c), k), verdict) {
      OptimizedWinnerWon(c, k, verdict);
    }
  }
}
