/** Rule matching with its timeout counters, and the coarse channel filters that must cover it. */
module Subscription {
  import opened Wrappers
  import opened Text
  import opened UuidForms

  datatype Scope = All(word: string) | List(ids: seq<string>)

  datatype Rule = Rule(
    name: string, channels: Scope, kinds: seq<nat>, requireMention: bool, hasFilter: bool, promptTag: Option<string>)

  const U16_MAX: nat := 65535

  type u16 = n: nat | n <= U16_MAX

  /** Events have 16-bit kinds, while rules may list any 32-bit number. */
  datatype Event = Event(kind: u16, tags: seq<seq<string>>)

  datatype Evaluation = IsTrue | IsFalse | TimedOut | Failed

  /** An event on a channel, and what each rule's filter expression comes to if it is evaluated. */
  datatype Arrival = Arrival(event: Event, channel: Uuid, evaluate: nat -> Evaluation)

  const MAX_TIMEOUTS: nat := 5

  // ---- One event against the rules ----

  predicate ScopeMatches(u: UuidText, scope: Scope, channel: Uuid) {
    match scope case All(word) => word == "all" case List(ids) => u.show(channel) in ids
  }

  predicate Mentions(e: Event, agent: string) {
    exists i | 0 <= i < |e.tags| :: |e.tags[i]| >= 2 && e.tags[i][0] == "p" && e.tags[i][1] == agent
  }

  /** Channel, kind and mention checks. */
  predicate Eligible(u: UuidText, rule: Rule, a: Arrival, agent: string) {
    ScopeMatches(u, rule.channels, a.channel)
    && (rule.kinds == [] || a.event.kind in rule.kinds)
    && (rule.requireMention ==> Mentions(a.event, agent))
  }

  datatype Ruling = Rejects | Passes | FailsClosed

  /** Rules, agent key and id format: fixed for a dispatch loop. */
  datatype Setup = Setup(u: UuidText, rules: seq<Rule>, agent: string)

  predicate Evaluates(s: Setup, counts: seq<nat>, a: Arrival, i: nat)
    requires i < |s.rules| == |counts|
  {
    Eligible(s.u, s.rules[i], a, s.agent) && s.rules[i].hasFilter && counts[i] < MAX_TIMEOUTS
  }

  function RulingOf(s: Setup, counts: seq<nat>, a: Arrival, i: nat): Ruling
    requires i < |s.rules| == |counts|
  {
    if !Eligible(s.u, s.rules[i], a, s.agent) then Rejects
    else if !s.rules[i].hasFilter then Passes
    else if counts[i] >= MAX_TIMEOUTS then FailsClosed
    else match a.evaluate(i)
      case IsTrue => Passes
      case IsFalse => Rejects
      case _ => FailsClosed
  }

  function NextCount(s: Setup, counts: seq<nat>, a: Arrival, i: nat): nat
    requires i < |s.rules| == |counts|
  {
    if !Evaluates(s, counts, a, i) then counts[i]
    else match a.evaluate(i)
      case TimedOut => counts[i] + 1
      case Failed => counts[i]
      case _ => 0
  }

  /** The first rule from `i` on that does not cleanly reject; the number of rules if all do. */
  function FirstDecisive(s: Setup, counts: seq<nat>, a: Arrival, i: nat): (k: nat)
    requires i <= |s.rules| == |counts|
    ensures i <= k <= |s.rules|
    ensures forall j | i <= j < k :: RulingOf(s, counts, a, j) == Rejects
    ensures k < |s.rules| ==> RulingOf(s, counts, a, k) != Rejects
    decreases |s.rules| - i
  {
    if i == |s.rules| || RulingOf(s, counts, a, i) != Rejects then i else FirstDecisive(s, counts, a, i + 1)
  }

  function Matched(s: Setup, counts: seq<nat>, a: Arrival): Option<nat>
    requires |s.rules| == |counts|
  {
    var k := FirstDecisive(s, counts, a, 0);
    if k < |s.rules| && RulingOf(s, counts, a, k) == Passes then Some(k) else None
  }

  function CountsAfter(s: Setup, counts: seq<nat>, a: Arrival): seq<nat>
    requires |s.rules| == |counts|
  {
    var k := FirstDecisive(s, counts, a, 0);
    seq(|counts|, j requires 0 <= j < |counts| => if j <= k then NextCount(s, counts, a, j) else counts[j])
  }

  /** What a rule asks of an event besides its filter: the channel by its printed id, the kind, and a `p` tag for the agent. */
  ghost predicate Fits(u: UuidText, rule: Rule, a: Arrival, agent: string) {
    && (rule.channels == All("all") || (rule.channels.List? && exists i :: 0 <= i < |rule.channels.ids| && rule.channels.ids[i] == u.show(a.channel)))
    && (rule.kinds == [] || exists i :: 0 <= i < |rule.kinds| && rule.kinds[i] == a.event.kind)
    && (rule.requireMention ==>
          exists i :: 0 <= i < |a.event.tags| && |a.event.tags[i]| >= 2 && a.event.tags[i][..2] == ["p", agent])
  }

  lemma EligibleIff(u: UuidText, rule: Rule, a: Arrival, agent: string)
    ensures Eligible(u, rule, a, agent) <==> Fits(u, rule, a, agent)
  {
    assert Mentions(a.event, agent) <==>
           exists i :: 0 <= i < |a.event.tags| && |a.event.tags[i]| >= 2 && a.event.tags[i][..2] == ["p", agent] by {
      if Mentions(a.event, agent) {
        var i :| 0 <= i < |a.event.tags| && |a.event.tags[i]| >= 2 && a.event.tags[i][0] == "p" && a.event.tags[i][1] == agent;
        assert a.event.tags[i][..2] == ["p", agent];
      }
      if i :| 0 <= i < |a.event.tags| && |a.event.tags[i]| >= 2 && a.event.tags[i][..2] == ["p", agent] {
        assert a.event.tags[i][..2][0] == "p" && a.event.tags[i][..2][1] == agent;
      }
    }
    hide Mentions;
  }

  /** The rule takes the event: it fits, and its filter, if it has one, is not disabled and true. */
  ghost predicate Takes(s: Setup, counts: seq<nat>, a: Arrival, i: nat)
    requires i < |s.rules| == |counts|
  {
    Fits(s.u, s.rules[i], a, s.agent) && (s.rules[i].hasFilter ==> counts[i] < 5 && a.evaluate(i) == IsTrue)
  }

  /** The rule lets the event pass on: it does not fit, or its filter is not disabled and false. */
  ghost predicate PassesOn(s: Setup, counts: seq<nat>, a: Arrival, i: nat)
    requires i < |s.rules| == |counts|
  {
    Fits(s.u, s.rules[i], a, s.agent) ==> s.rules[i].hasFilter && counts[i] < 5 && a.evaluate(i) == IsFalse
  }

  lemma RulingMeans(s: Setup, counts: seq<nat>, a: Arrival, i: nat)
    requires i < |s.rules| == |counts|
    ensures RulingOf(s, counts, a, i) == Passes <==> Takes(s, counts, a, i)
    ensures RulingOf(s, counts, a, i) == Rejects <==> PassesOn(s, counts, a, i)
  {
    EligibleIff(s.u, s.rules[i], a, s.agent);
    hide Eligible, Fits;
  }

  /** A rule is chosen exactly if it takes the event and every earlier one passes it on; none is if one that fails closed comes first. */
  lemma MatchedIff(s: Setup, counts: seq<nat>, a: Arrival, i: nat)
    requires i < |s.rules| == |counts|
    ensures Matched(s, counts, a) == Some(i) <==> Takes(s, counts, a, i) && forall j | 0 <= j < i :: PassesOn(s, counts, a, j)
    ensures !Takes(s, counts, a, i) && !PassesOn(s, counts, a, i) && (forall j | 0 <= j < i :: PassesOn(s, counts, a, j))
            ==> Matched(s, counts, a).None?
  {
    var k := FirstDecisive(s, counts, a, 0);
    forall j | 0 <= j < |s.rules|
      ensures RulingOf(s, counts, a, j) == Passes <==> Takes(s, counts, a, j)
      ensures RulingOf(s, counts, a, j) == Rejects <==> PassesOn(s, counts, a, j)
    {
      RulingMeans(s, counts, a, j);
    }
    hide RulingOf, Takes, PassesOn, FirstDecisive;
    if forall j | 0 <= j < i :: PassesOn(s, counts, a, j) {
      assert i <= k;
    }
  }

  class Matcher {
    const setup: Setup
    /** The consecutive timeouts of each rule. */
    var counts: seq<nat>

    ghost predicate Valid()
      reads this
    {
      |counts| == |setup.rules|
    }

    constructor (setup: Setup)
      ensures Valid() && this.setup == setup && counts == seq(|setup.rules|, _ => 0)
    {
      this.setup, counts := setup, seq(|setup.rules|, _ => 0);
    }

    /** `match_event`: the index of the matching rule and its prompt tag. */
    method MatchEvent(a: Arrival) returns (r: Option<(nat, string)>)
      requires Valid()
      modifies this
      ensures Valid() && counts == CountsAfter(setup, old(counts), a)
      ensures r.None? <==> Matched(setup, old(counts), a).None?
      ensures r.Some? ==>
                && Matched(setup, old(counts), a) == Some(r.value.0) && r.value.0 < |setup.rules|
                && var rule := setup.rules[r.value.0];
                   r.value.1 == if rule.promptTag.Some? then rule.promptTag.value else rule.name
    {
      ghost var counts0 := counts;
      for i := 0 to |setup.rules|
        invariant Valid()
        invariant FirstDecisive(setup, counts0, a, 0) == FirstDecisive(setup, counts0, a, i)
        invariant forall j | 0 <= j < |counts| ::
          counts[j] == if j < i then NextCount(setup, counts0, a, j) else counts0[j]
      {
        var rule := setup.rules[i];
        if !ScopeMatches(setup.u, rule.channels, a.channel) {
          continue;
        }
        if rule.kinds != [] && a.event.kind !in rule.kinds {
          continue;
        }
        if rule.requireMention && !Mentions(a.event, setup.agent) {
          continue;
        }
        if rule.hasFilter {
          if counts[i] >= MAX_TIMEOUTS {
            return None;
          }
          match a.evaluate(i) {
            case IsTrue => counts := counts[i := 0];
            case IsFalse =>
              counts := counts[i := 0];
              continue;
            case TimedOut =>
              counts := counts[i := counts[i] + 1];
              return None;
            case Failed => return None;
          }
        }
        return Some((i, if rule.promptTag.Some? then rule.promptTag.value else rule.name));
      }
      r := None;
    }
  }

  // ---- A stream of events ----

  /** The counters, with a log of the evaluations made of each rule's filter. */
  datatype Dispatch = Dispatch(counts: seq<nat>, made: seq<seq<Evaluation>>)

  ghost predicate WellFormed(s: Setup, d: Dispatch) { |d.counts| == |s.rules| == |d.made| }

  function DispatchOne(s: Setup, d: Dispatch, a: Arrival): (d': Dispatch)
    requires WellFormed(s, d)
    ensures WellFormed(s, d')
  {
    var k := FirstDecisive(s, d.counts, a, 0);
    Dispatch(CountsAfter(s, d.counts, a),
             seq(|d.made|, j requires 0 <= j < |d.made| =>
               d.made[j] + if j <= k && Evaluates(s, d.counts, a, j) then [a.evaluate(j)] else []))
  }

  function Stream(s: Setup, d: Dispatch, events: seq<Arrival>): (d': Dispatch)
    requires WellFormed(s, d)
    ensures WellFormed(s, d')
  {
    if events == [] then d else DispatchOne(s, Stream(s, d, events[..|events| - 1]), events[|events| - 1])
  }

  function Fresh(s: Setup): Dispatch {
    Dispatch(seq(|s.rules|, _ => 0), seq(|s.rules|, _ => []))
  }

  predicate Completes(e: Evaluation) { e.IsTrue? || e.IsFalse? }

  /** The evaluations after the last one that completed. */
  function SinceCompleted(made: seq<Evaluation>): seq<Evaluation> {
    if made == [] || Completes(made[|made| - 1]) then []
    else SinceCompleted(made[..|made| - 1]) + [made[|made| - 1]]
  }

  function Timeouts(made: seq<Evaluation>): nat {
    if made == [] then 0 else Timeouts(made[..|made| - 1]) + if made[|made| - 1].TimedOut? then 1 else 0
  }

  lemma OneMore(made: seq<Evaluation>, e: Evaluation)
    ensures Timeouts(SinceCompleted(made + [e])) ==
            if Completes(e) then 0 else Timeouts(SinceCompleted(made)) + if e.TimedOut? then 1 else 0
  {
    assert (made + [e])[..|made|] == made;
    var since := SinceCompleted(made);
    assert (since + [e])[..|since|] == since;
  }

  ghost predicate CountersExact(s: Setup, d: Dispatch) {
    WellFormed(s, d) &&
    forall j | 0 <= j < |d.counts| :: d.counts[j] == Timeouts(SinceCompleted(d.made[j])) && d.counts[j] <= 5
  }

  lemma CounterStep(s: Setup, d: Dispatch, a: Arrival, j: nat)
    requires CountersExact(s, d) && j < |s.rules|
    ensures var d' := DispatchOne(s, d, a);
            d'.counts[j] == Timeouts(SinceCompleted(d'.made[j])) && d'.counts[j] <= MAX_TIMEOUTS
  {
    var d' := DispatchOne(s, d, a);
    hide FirstDecisive, Eligible, Timeouts, SinceCompleted;
    if j <= FirstDecisive(s, d.counts, a, 0) && Evaluates(s, d.counts, a, j) {
      OneMore(d.made[j], a.evaluate(j));
    } else {
      assert d'.made[j] == d.made[j];
    }
  }

  /** Each counter is its rule's number of timeouts since the last evaluation that completed, and never exceeds five. */
  lemma {:induction false} CountersTrackTimeouts(s: Setup, events: seq<Arrival>)
    ensures CountersExact(s, Stream(s, Fresh(s), events))
  {
    if events != [] {
      var n := |events| - 1;
      CountersTrackTimeouts(s, events[..n]);
      var d := Stream(s, Fresh(s), events[..n]);
      hide DispatchOne, Timeouts, SinceCompleted;
      forall j | 0 <= j < |s.rules|
        ensures var d' := DispatchOne(s, d, events[n]);
                d'.counts[j] == Timeouts(SinceCompleted(d'.made[j])) && d'.counts[j] <= MAX_TIMEOUTS
      {
        CounterStep(s, d, events[n], j);
      }
    }
  }

  /** A rule that has timed out five times in a row stays disabled, and every event that reaches it matches nothing. */
  lemma {:induction false} DisabledForever(s: Setup, d: Dispatch, events: seq<Arrival>, i: nat, a: Arrival)
    requires WellFormed(s, d) && i < |s.rules| && d.counts[i] == 5
    ensures Stream(s, d, events).counts[i] == 5
    ensures s.rules[i].hasFilter && Fits(s.u, s.rules[i], a, s.agent)
            && (forall j | 0 <= j < i :: PassesOn(s, Stream(s, d, events).counts, a, j))
            ==> Matched(s, Stream(s, d, events).counts, a).None?
  {
    if events != [] {
      DisabledForever(s, d, events[..|events| - 1], i, a);
    }
    MatchedIff(s, Stream(s, d, events).counts, a, i);
  }

  // ---- Channel filters ----

  datatype Mode = MentionsMode | AllMode | ConfigMode

  datatype Config = Config(
    mode: Mode, channelsOverride: Option<seq<string>>, kindsOverride: Option<seq<nat>>, noMentionFilter: bool)

  datatype ChannelFilter = ChannelFilter(kinds: Option<seq<nat>>, requireMention: bool)

  const DEFAULT_KINDS: seq<nat> := [9, 46010, 40007]

  predicate NamesChannel(u: UuidText, ids: seq<string>, channel: Uuid) {
    exists i | 0 <= i < |ids| :: u.parse(ids[i]) == Some(channel)
  }

  /** `rule_applies_to_channel`. */
  predicate Applies(u: UuidText, rule: Rule, channel: Uuid) {
    match rule.channels
    case All(word) => word == "all"
    case List(ids) => NamesChannel(u, ids, channel)
  }

  function AddKinds(kinds: seq<nat>, more: seq<nat>): seq<nat> {
    if more == [] then kinds
    else
      var front := AddKinds(kinds, more[..|more| - 1]);
      if more[|more| - 1] in front then front else front + [more[|more| - 1]]
  }

  /** The loop state while the rules that apply to a channel are merged. */
  datatype Merge = Merge(kinds: Option<seq<nat>>, requireMention: bool, hasRule: bool)

  function MergeRule(u: UuidText, m: Merge, rule: Rule, channel: Uuid): Merge {
    if !Applies(u, rule, channel) then m
    else Merge(if rule.kinds == [] || m.kinds.None? then None else Some(AddKinds(m.kinds.value, rule.kinds)),
               m.requireMention && rule.requireMention, true)
  }

  function MergeRules(u: UuidText, rules: seq<Rule>, channel: Uuid): Merge {
    if rules == [] then Merge(Some([]), true, false)
    else MergeRule(u, MergeRules(u, rules[..|rules| - 1], channel), rules[|rules| - 1], channel)
  }

  function Merged(u: UuidText, rules: seq<Rule>, channel: Uuid): Option<ChannelFilter> {
    var m := MergeRules(u, rules, channel);
    if m.hasRule then Some(ChannelFilter(m.kinds, m.requireMention)) else None
  }

  lemma {:induction false} AddKindsHolds(kinds: seq<nat>, more: seq<nat>)
    ensures forall k :: k in AddKinds(kinds, more) <==> k in kinds || k in more
  {
    if more != [] {
      AddKindsHolds(kinds, more[..|more| - 1]);
      assert more == more[..|more| - 1] + [more[|more| - 1]];
    }
  }

  ghost predicate SomeRule(u: UuidText, rules: seq<Rule>, channel: Uuid, p: Rule -> bool) {
    exists i | 0 <= i < |rules| :: Applies(u, rules[i], channel) && p(rules[i])
  }

  lemma LastRule(u: UuidText, rules: seq<Rule>, channel: Uuid, p: Rule -> bool)
    requires rules != []
    ensures var n := |rules| - 1;
            SomeRule(u, rules, channel, p) <==>
            SomeRule(u, rules[..n], channel, p) || (Applies(u, rules[n], channel) && p(rules[n]))
  {
    var n := |rules| - 1;
    hide Applies;
    if i :| 0 <= i < n && Applies(u, rules[..n][i], channel) && p(rules[..n][i]) {
      assert Applies(u, rules[i], channel) && p(rules[i]);
    }
    if i :| 0 <= i < n && Applies(u, rules[i], channel) && p(rules[i]) {
      assert Applies(u, rules[..n][i], channel) && p(rules[..n][i]);
    }
  }

  /** What the merged filter says, over all the rules that apply to the channel. */
  lemma {:induction false} MergedMeans(u: UuidText, rules: seq<Rule>, channel: Uuid, k: nat)
    ensures var m := MergeRules(u, rules, channel);
            && (m.hasRule <==> SomeRule(u, rules, channel, (r: Rule) => true))
            && (m.kinds.None? <==> SomeRule(u, rules, channel, (r: Rule) => r.kinds == []))
            && (m.kinds.Some? ==> (k in m.kinds.value <==> SomeRule(u, rules, channel, (r: Rule) => k in r.kinds)))
            && (m.requireMention <==> !SomeRule(u, rules, channel, (r: Rule) => !r.requireMention))
  {
    if rules != [] {
      var n := |rules| - 1;
      MergedMeans(u, rules[..n], channel, k);
      LastRule(u, rules, channel, (r: Rule) => true);
      LastRule(u, rules, channel, (r: Rule) => r.kinds == []);
      LastRule(u, rules, channel, (r: Rule) => k in r.kinds);
      LastRule(u, rules, channel, (r: Rule) => !r.requireMention);
      var m := MergeRules(u, rules[..n], channel);
      if m.kinds.Some? {
        AddKindsHolds(m.kinds.value, rules[n].kinds);
      }
      hide SomeRule, Applies, AddKinds;
    }
  }

  ghost predicate Distinct(kinds: seq<nat>) { forall i, j | 0 <= i < j < |kinds| :: kinds[i] != kinds[j] }

  lemma {:induction false} AddKindsDistinct(kinds: seq<nat>, more: seq<nat>)
    requires Distinct(kinds)
    ensures Distinct(AddKinds(kinds, more))
  {
    if more != [] {
      AddKindsDistinct(kinds, more[..|more| - 1]);
    }
  }

  /** A merged filter lists each kind once. */
  lemma {:induction false} MergedDistinct(u: UuidText, rules: seq<Rule>, channel: Uuid)
    ensures var m := MergeRules(u, rules, channel); m.kinds.Some? ==> Distinct(m.kinds.value)
  {
    if rules != [] {
      var n := |rules| - 1;
      MergedDistinct(u, rules[..n], channel);
      var m := MergeRules(u, rules[..n], channel);
      if m.kinds.Some? {
        AddKindsDistinct(m.kinds.value, rules[n].kinds);
      }
      hide AddKinds, Applies;
    }
  }

  function ModeFilter(config: Config): ChannelFilter {
    if config.mode.MentionsMode?
    then ChannelFilter(Some(if config.kindsOverride.Some? then config.kindsOverride.value else DEFAULT_KINDS), !config.noMentionFilter)
    else ChannelFilter(config.kindsOverride, false)
  }

  /** The filter of one channel. */
  function ChannelFilterFor(config: Config, u: UuidText, channel: Uuid, rules: seq<Rule>): Option<ChannelFilter> {
    if config.mode.ConfigMode? then Merged(u, rules, channel)
    else if config.channelsOverride.Some? && !NamesChannel(u, config.channelsOverride.value, channel) then None
    else Some(ModeFilter(config))
  }

  /** The filters of the modes without rules: the operator's kinds or the three defaults under a mention filter, or all kinds. */
  lemma ModeFilters(config: Config, u: UuidText, channel: Uuid, rules: seq<Rule>)
    requires !config.mode.ConfigMode?
    ensures var f := ChannelFilterFor(config, u, channel, rules);
            && (f.Some? <==> (config.channelsOverride.Some? ==>
                                exists i :: 0 <= i < |config.channelsOverride.value| && u.parse(config.channelsOverride.value[i]) == Some(channel)))
            && (f.Some? && config.mode.MentionsMode? ==>
                  f.value == ChannelFilter(Some(match config.kindsOverride case Some(kinds) => kinds case None => [9, 46010, 40007]),
                                           !config.noMentionFilter))
            && (f.Some? && config.mode.AllMode? ==> f.value == ChannelFilter(config.kindsOverride, false))
  {
  }

  method PushKinds(kinds: seq<nat>, more: seq<nat>) returns (r: seq<nat>)
    ensures r == AddKinds(kinds, more)
  {
    r := kinds;
    for i := 0 to |more|
      invariant r == AddKinds(kinds, more[..i])
    {
      assert more[..i + 1][..i] == more[..i];
      if more[i] !in r {
        r := r + [more[i]];
      }
    }
    assert more[..|more|] == more;
  }

  /** The rule loop, which both resolvers run for a channel in Config mode. */
  method MergeApplicable(u: UuidText, rules: seq<Rule>, channel: Uuid) returns (r: Option<ChannelFilter>)
    ensures r == Merged(u, rules, channel)
  {
    var kinds: Option<seq<nat>>, requireMention, hasRule := Some([]), true, false;
    for i := 0 to |rules|
      invariant Merge(kinds, requireMention, hasRule) == MergeRules(u, rules[..i], channel)
    {
      assert rules[..i + 1][..i] == rules[..i];
      if !Applies(u, rules[i], channel) {
        continue;
      }
      hasRule := true;
      if rules[i].kinds == [] {
        kinds := None;
      } else if kinds.Some? {
        var more := PushKinds(kinds.value, rules[i].kinds);
        kinds := Some(more);
      }
      if !rules[i].requireMention {
        requireMention := false;
      }
    }
    assert rules[..|rules|] == rules;
    r := if hasRule then Some(ChannelFilter(kinds, requireMention)) else None;
  }

  method ResolveDynamicChannelFilter(config: Config, u: UuidText, channel: Uuid, rules: seq<Rule>)
    returns (r: Option<ChannelFilter>)
    ensures r == ChannelFilterFor(config, u, channel, rules)
  {
    if config.mode != ConfigMode && config.channelsOverride.Some? {
      if !NamesChannel(u, config.channelsOverride.value, channel) {
        return None;
      }
    }
    match config.mode {
      case MentionsMode =>
        var kinds := if config.kindsOverride.Some? then config.kindsOverride.value else DEFAULT_KINDS;
        r := Some(ChannelFilter(Some(kinds), !config.noMentionFilter));
      case AllMode => r := Some(ChannelFilter(config.kindsOverride, false));
      case ConfigMode => r := MergeApplicable(u, rules, channel);
    }
  }

  /** The discovered channels the operator's allow list names, in its order. */
  method TargetChannels(config: Config, u: UuidText, discovered: seq<Uuid>) returns (targets: seq<Uuid>)
    ensures forall ch :: ch in targets <==>
                         ch in discovered && (config.channelsOverride.Some? ==> NamesChannel(u, config.channelsOverride.value, ch))
  {
    if config.channelsOverride.None? {
      return discovered;
    }
    var names := config.channelsOverride.value;
    targets := [];
    for i := 0 to |names|
      invariant forall ch :: ch in targets <==> ch in discovered && NamesChannel(u, names[..i], ch)
    {
      var id := u.parse(names[i]);
      forall ch ensures NamesChannel(u, names[..i + 1], ch) <==> NamesChannel(u, names[..i], ch) || id == Some(ch) {
        NamesOneMore(u, names, i, ch);
      }
      if id.Some? && id.value in discovered {
        targets := targets + [id.value];
      }
    }
    assert names[..|names|] == names;
  }

  lemma NamesOneMore(u: UuidText, names: seq<string>, i: nat, ch: Uuid)
    requires i < |names|
    ensures NamesChannel(u, names[..i + 1], ch) <==> NamesChannel(u, names[..i], ch) || u.parse(names[i]) == Some(ch)
  {
    var shorter, longer := names[..i], names[..i + 1];
    assert longer[i] == names[i];
    if NamesChannel(u, shorter, ch) {
      var j :| 0 <= j < i && u.parse(shorter[j]) == Some(ch);
      assert u.parse(longer[j]) == Some(ch);
    }
    if NamesChannel(u, longer, ch) {
      var j :| 0 <= j < |longer| && u.parse(longer[j]) == Some(ch);
      assert j < i ==> u.parse(shorter[j]) == Some(ch);
    }
  }

  /** The batch resolver holds, for exactly the discovered channels that have one, the filter of the single-channel resolver. */
  method ResolveChannelFilters(config: Config, u: UuidText, discovered: seq<Uuid>, rules: seq<Rule>)
    returns (r: map<Uuid, ChannelFilter>)
    ensures forall ch :: ch in r <==> ch in discovered && ChannelFilterFor(config, u, ch, rules).Some?
    ensures forall ch | ch in r :: Some(r[ch]) == ChannelFilterFor(config, u, ch, rules)
  {
    var targets := TargetChannels(config, u, discovered);
    r := map[];
    match config.mode {
      case MentionsMode =>
        var kinds := if config.kindsOverride.Some? then config.kindsOverride.value else DEFAULT_KINDS;
        for i := 0 to |targets|
          invariant forall ch :: ch in r <==> ch in targets[..i]
          invariant forall ch | ch in r :: r[ch] == ModeFilter(config)
        {
          r := r[targets[i] := ChannelFilter(Some(kinds), !config.noMentionFilter)];
        }
      case AllMode =>
        for i := 0 to |targets|
          invariant forall ch :: ch in r <==> ch in targets[..i]
          invariant forall ch | ch in r :: r[ch] == ModeFilter(config)
        {
          r := r[targets[i] := ChannelFilter(config.kindsOverride, false)];
        }
      case ConfigMode =>
        for i := 0 to |discovered|
          invariant forall ch :: ch in r <==> ch in discovered[..i] && Merged(u, rules, ch).Some?
          invariant forall ch | ch in r :: Some(r[ch]) == Merged(u, rules, ch)
        {
          var filter := MergeApplicable(u, rules, discovered[i]);
          if filter.Some? {
            r := r[discovered[i] := filter.value];
          }
        }
    }
  }

  // ---- Coverage ----

  predicate Admits(f: ChannelFilter, e: Event, agent: string) {
    (f.kinds.None? || e.kind in f.kinds.value) && (f.requireMention ==> Mentions(e, agent))
  }

  /** The merged filter covers matching: a rule is never chosen for an event the channel's filter would have kept away. */
  lemma FilterCoversMatching(config: Config, s: Setup, counts: seq<nat>, a: Arrival)
    requires RoundTrips(s.u) && config.mode.ConfigMode? && |counts| == |s.rules| && Matched(s, counts, a).Some?
    ensures var filter := ChannelFilterFor(config, s.u, a.channel, s.rules);
            filter.Some? && Admits(filter.value, a.event, s.agent)
  {
    var i := Matched(s, counts, a).value;
    var rule := s.rules[i];
    assert Eligible(s.u, rule, a, s.agent);
    ScopesAgreeIff(s.u, rule, a.channel);
    MergedMeans(s.u, s.rules, a.channel, a.event.kind);
    hide MergeRules, Applies, Eligible, Matched;
  }

  /** A rule that names the channel, but never in the spelling the matcher compares with. */
  predicate OnlyNonCanonical(u: UuidText, rule: Rule, channel: Uuid) {
    rule.channels.List? && NamesChannel(u, rule.channels.ids, channel) && u.show(channel) !in rule.channels.ids
  }

  /** Subscribing and matching take the same view of a rule's scope, except for exactly such rules. */
  lemma ScopesAgreeIff(u: UuidText, rule: Rule, channel: Uuid)
    requires RoundTrips(u)
    ensures (Applies(u, rule, channel) <==> ScopeMatches(u, rule.channels, channel)) <==> !OnlyNonCanonical(u, rule, channel)
    ensures ScopeMatches(u, rule.channels, channel) ==> Applies(u, rule, channel)
  {
    if rule.channels.List? && u.show(channel) in rule.channels.ids {
      var k :| 0 <= k < |rule.channels.ids| && rule.channels.ids[k] == u.show(channel);
      assert u.parse(rule.channels.ids[k]) == Some(channel);
    }
  }

  /** A rule whose kinds no event can have. */
  predicate OnlyImpossibleKinds(rule: Rule) {
    rule.kinds != [] && forall j | 0 <= j < |rule.kinds| :: rule.kinds[j] > U16_MAX
  }

  predicate Unmatchable(u: UuidText, rule: Rule, channel: Uuid) {
    OnlyNonCanonical(u, rule, channel) || OnlyImpossibleKinds(rule)
  }

  /** No event on the channel matches, whatever the filter expressions come to, with no rule disabled. */
  ghost predicate Deaf(u: UuidText, rules: seq<Rule>, channel: Uuid, agent: string) {
    var s := Setup(u, rules, agent);
    forall a: Arrival | a.channel == channel :: Matched(s, Fresh(s).counts, a).None?
  }

  /** An event that passes a rule's kind and mention checks if any can, with every filter expression true. */
  function Welcome(rule: Rule, channel: Uuid, agent: string): Arrival {
    var possible := if exists j | 0 <= j < |rule.kinds| :: rule.kinds[j] <= U16_MAX
                    then FirstPossible(rule.kinds) else 0;
    Arrival(Event(possible, [["p", agent]]), channel, _ => IsTrue)
  }

  function FirstPossible(kinds: seq<nat>): (k: u16)
    requires exists j | 0 <= j < |kinds| :: kinds[j] <= U16_MAX
    ensures k in kinds
  {
    if kinds[0] <= U16_MAX then kinds[0] else FirstPossible(kinds[1..])
  }

  lemma WelcomeEligible(u: UuidText, rule: Rule, channel: Uuid, agent: string)
    requires ScopeMatches(u, rule.channels, channel) && !OnlyImpossibleKinds(rule)
    ensures Eligible(u, rule, Welcome(rule, channel, agent), agent)
  {
    var tags := Welcome(rule, channel, agent).event.tags;
    assert tags[0][0] == "p" && tags[0][1] == agent;
  }

  /** With no rule disabled, an event matches nothing for any outcome of the filters exactly if it is eligible for no rule. */
  lemma NoneEligible(u: UuidText, rules: seq<Rule>, agent: string, a: Arrival)
    ensures var s := Setup(u, rules, agent); var counts := Fresh(s).counts;
            && ((forall i | 0 <= i < |rules| :: !Eligible(u, rules[i], a, agent)) ==> Matched(s, counts, a).None?)
            && ((forall i | 0 <= i < |rules| :: a.evaluate(i).IsTrue?) && Matched(s, counts, a).None? ==>
                  forall i | 0 <= i < |rules| :: !Eligible(u, rules[i], a, agent))
  {
    var s := Setup(u, rules, agent);
    var counts := Fresh(s).counts;
    var k := FirstDecisive(s, counts, a, 0);
    hide FirstDecisive, Eligible;
    if forall i | 0 <= i < |rules| :: !Eligible(u, rules[i], a, agent) {
      assert k == |rules|;
    }
    if (forall i | 0 <= i < |rules| :: a.evaluate(i).IsTrue?) && Matched(s, counts, a).None? {
      assert k == |rules|;
      forall i | 0 <= i < |rules| ensures !Eligible(u, rules[i], a, agent) {
        assert RulingOf(s, counts, a, i) == Rejects;
      }
    }
  }

  /** The converse of coverage: no event on a channel can match exactly if every rule that applies to it is unmatchable. */
  lemma DeafIff(u: UuidText, rules: seq<Rule>, channel: Uuid, agent: string)
    requires RoundTrips(u)
    ensures Deaf(u, rules, channel, agent) <==>
            forall i | 0 <= i < |rules| && Applies(u, rules[i], channel) :: Unmatchable(u, rules[i], channel)
  {
    hide Applies, ScopeMatches, NamesChannel, Matched, Eligible, RulingOf, FirstDecisive;
    if Deaf(u, rules, channel, agent) {
      forall i | 0 <= i < |rules| && Applies(u, rules[i], channel) ensures Unmatchable(u, rules[i], channel) {
        ScopesAgreeIff(u, rules[i], channel);
        if !Unmatchable(u, rules[i], channel) {
          WelcomeEligible(u, rules[i], channel, agent);
          NoneEligible(u, rules, agent, Welcome(rules[i], channel, agent));
          assert false;
        }
      }
    }
    if forall i | 0 <= i < |rules| && Applies(u, rules[i], channel) :: Unmatchable(u, rules[i], channel) {
      forall a: Arrival | a.channel == channel
        ensures var s := Setup(u, rules, agent); Matched(s, Fresh(s).counts, a).None?
      {
        forall i | 0 <= i < |rules| ensures !Eligible(u, rules[i], a, agent) {
          UnmatchableNever(u, rules[i], a, agent);
        }
        NoneEligible(u, rules, agent, a);
      }
    }
  }

  lemma UnmatchableNever(u: UuidText, rule: Rule, a: Arrival, agent: string)
    requires RoundTrips(u) && (Applies(u, rule, a.channel) ==> Unmatchable(u, rule, a.channel))
    ensures !Eligible(u, rule, a, agent)
  {
    ScopesAgreeIff(u, rule, a.channel);
    hide Applies, NamesChannel;
  }

  /** A channel is subscribed and deaf exactly if some rule applies to it and every one that does is unmatchable. */
  lemma SubscribedButDeafIff(config: Config, u: UuidText, rules: seq<Rule>, channel: Uuid, agent: string)
    requires RoundTrips(u) && config.mode.ConfigMode?
    ensures ChannelFilterFor(config, u, channel, rules).Some? && Deaf(u, rules, channel, agent) <==>
            && (exists i :: 0 <= i < |rules| && Applies(u, rules[i], channel))
            && (forall i | 0 <= i < |rules| && Applies(u, rules[i], channel) :: Unmatchable(u, rules[i], channel))
  {
    DeafIff(u, rules, channel, agent);
    MergedMeans(u, rules, channel, 0);
    hide MergeRules, Applies, Deaf, Unmatchable;
    if ChannelFilterFor(config, u, channel, rules).Some? {
      assert SomeRule(u, rules, channel, (r: Rule) => true);
    }
  }

  /** With real channel ids the case arises: an id written in capitals. */
  lemma CapitalsAreDeaf(config: Config, name: string, agent: string)
    requires config.mode.ConfigMode?
    ensures var channel := Uuid(seq(32, _ => 'a'));
            var rule := Rule(name, List([Upper(Show(channel))]), [], false, false, None);
            ChannelFilterFor(config, STANDARD, channel, [rule]).Some? && Deaf(STANDARD, [rule], channel, agent)
  {
    var channel := Uuid(seq(32, _ => 'a'));
    var capitals := Upper(Show(channel));
    var rule := Rule(name, List([capitals]), [], false, false, None);
    StandardRoundTrips();
    assert Show(channel)[0] == 'a' && capitals[0] == 'A';
    assert STANDARD.parse(rule.channels.ids[0]) == Some(channel);
    assert NamesChannel(STANDARD, rule.channels.ids, channel);
    assert Applies(STANDARD, [rule][0], channel) && OnlyNonCanonical(STANDARD, rule, channel);
    SubscribedButDeafIff(config, STANDARD, [rule], channel, agent);
  }

  /** And so does a rule for all channels whose only kind does not fit 16 bits. */
  lemma LargeKindIsDeaf(config: Config, u: UuidText, channel: Uuid, name: string, agent: string)
    requires RoundTrips(u) && config.mode.ConfigMode?
    ensures var rule := Rule(name, All("all"), [70_000], false, false, None);
            ChannelFilterFor(config, u, channel, [rule]).Some? && Deaf(u, [rule], channel, agent)
  {
    var rule := Rule(name, All("all"), [70_000], false, false, None);
    assert Applies(u, [rule][0], channel) && OnlyImpossibleKinds(rule);
    SubscribedButDeafIff(config, u, [rule], channel, agent);
  }
}
