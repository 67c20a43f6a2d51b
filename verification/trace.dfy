/** Sequences of host events driving either plugin variant, and the properties that hold over
    whole sessions: the state stays valid, sends are throttled, baselines are written once and
    ignored skills are never reported. */
module Trace {
  import opened Optional
  import opened JavaInt
  import opened RuneLite
  import opened TrackerConfig
  import opened Session
  import PushPlugin
  import TrimmedPlugin

  /** Which source file's handlers run. `urlParses` says whether OkHttp accepts a URL; the
      push variant also needs the level-threshold table. */
  datatype Plugin =
    | Push(xpForLevel: int -> Int32, urlParses: string -> bool)
    | Trimmed(urlParses: string -> bool)

  ghost predicate ValidPlugin(p: Plugin) {
    p.Push? ==> ValidXpTable(p.xpForLevel)
  }

  /** One delivery from the host's event bus, with the configuration and client readings the
      handler sees when it runs. A shutdown may be followed by further events: the plugin has
      then been started again, which does not touch the state. */
  datatype Event =
    | StatChanged(cfg: Config, skill: Skill, clientXp: Int32)
    | GameStateChanged(gameState: GameState)
    | ShutDown
    | GameTick(cfg: Config, now: Int64, client: Client, tracker: XpTracker)

  datatype Report = PushReport(pushData: PushPlugin.SkillData) | TrimmedReport(trimmedData: TrimmedPlugin.SkillData) {
    function ReportedSkill(): Skill {
      match this
      case PushReport(d) => d.skill
      case TrimmedReport(d) => d.skill
    }

    function XpGained(): Int32 {
      match this
      case PushReport(d) => d.xpGained
      case TrimmedReport(d) => d.xpGained
    }
  }

  /** A record handed to the device, with the clock reading of its tick. */
  datatype Sent = Sent(at: Int64, report: Report)

  datatype Outcome = Outcome(final: State, sent: seq<Sent>)

  function Step(p: Plugin, s: State, e: Event): (r: Outcome)
    requires ValidPlugin(p)
    ensures |r.sent| <= 1
    ensures !e.GameTick? ==> r.sent == []
    ensures r.final.lastUpdateTime != s.lastUpdateTime ==>
      && e.GameTick?
      && r.final.lastUpdateTime == e.now
      && (0 <= s.lastUpdateTime && 0 <= e.now ==> s.lastUpdateTime + UPDATE_DELAY_MS <= e.now)
    ensures r.sent != [] ==>
      && e.GameTick?
      && r.sent[0].at == e.now
      && r.final.lastUpdateTime == e.now
      && SkillToUpdate(s).Some?
      && r.sent[0].report.ReportedSkill() == SkillToUpdate(s).value
      && (0 <= s.lastUpdateTime && 0 <= e.now ==> s.lastUpdateTime + UPDATE_DELAY_MS <= e.now)
  {
    match e
    case StatChanged(cfg, skill, xp) =>
      var next := if p.Push? then PushPlugin.OnStatChanged(s, cfg, skill, xp) else TrimmedPlugin.OnStatChanged(s, cfg, skill, xp);
      Outcome(next, [])
    case GameStateChanged(gameState) =>
      var next := if p.Push? then PushPlugin.OnGameStateChanged(s, gameState) else TrimmedPlugin.OnGameStateChanged(s, gameState);
      Outcome(next, [])
    case ShutDown =>
      var next := if p.Push? then PushPlugin.ShutDown(s) else TrimmedPlugin.ShutDown(s);
      Outcome(next, [])
    case GameTick(cfg, now, client, tracker) =>
      if p.Push? then
        var r := PushPlugin.OnGameTick(s, cfg, now, client, tracker, p.xpForLevel, p.urlParses);
        Outcome(r.next, if r.sent.Some? then [Sent(now, PushReport(r.sent.value))] else [])
      else
        var r := TrimmedPlugin.OnGameTick(s, cfg, now, client, tracker, p.urlParses);
        Outcome(r.next, if r.sent.Some? then [Sent(now, TrimmedReport(r.sent.value))] else [])
  }

  /** The state after handling `events` in order, and everything sent on the way. */
  function Run(p: Plugin, s: State, events: seq<Event>): (r: Outcome)
    requires ValidPlugin(p)
    decreases |events|
  {
    if events == [] then
      Outcome(s, [])
    else
      var first := Step(p, s, events[0]);
      var rest := Run(p, first.final, events[1..]);
      Outcome(rest.final, first.sent + rest.sent)
  }

  /** Every handler keeps the state valid. */
  lemma StepPreservesValid(p: Plugin, s: State, e: Event)
    requires ValidPlugin(p) && Valid(s)
    ensures Valid(Step(p, s, e).final)
  {
  }

  lemma {:induction false} RunPreservesValid(p: Plugin, s: State, events: seq<Event>)
    requires ValidPlugin(p) && Valid(s)
    ensures Valid(Run(p, s, events).final)
    decreases |events|
  {
    if events != [] {
      StepPreservesValid(p, s, events[0]);
      RunPreservesValid(p, Step(p, s, events[0]).final, events[1..]);
    }
  }

  /** From a valid state, and so from the initial one, OVERALL is never reported. */
  lemma {:induction false} OverallNeverSent(p: Plugin, s: State, events: seq<Event>)
    requires ValidPlugin(p) && Valid(s)
    ensures forall i :: 0 <= i < |Run(p, s, events).sent| ==> Run(p, s, events).sent[i].report.ReportedSkill() != Overall
    decreases |events|
  {
    if events != [] {
      var first := Step(p, s, events[0]);
      ValidSelection(s);
      StepPreservesValid(p, s, events[0]);
      OverallNeverSent(p, first.final, events[1..]);
    }
  }

  /** Whether a clock reading of every tick is non-negative, as wall-clock milliseconds since
      the epoch are. */
  ghost predicate NonNegativeClock(events: seq<Event>) {
    forall i :: 0 <= i < |events| && events[i].GameTick? ==> 0 <= events[i].now
  }

  /** Each send comes at least `UPDATE_DELAY_MS` after the one before it, the first at least
      that long after `last`. */
  ghost predicate Spaced(last: int, sent: seq<Sent>) {
    && (sent != [] ==> last + UPDATE_DELAY_MS <= sent[0].at)
    && forall i {:trigger sent[i]} :: 0 < i < |sent| ==> sent[i - 1].at + UPDATE_DELAY_MS <= sent[i].at
  }

  /** The last send time after `sent`, starting from `last`. */
  function LastSendTime(last: int, sent: seq<Sent>): int {
    if sent == [] then last else sent[|sent| - 1].at
  }

  /** The throttle over a whole run: the sends are spaced, and the state's send time never
      falls behind the latest send. It can run ahead of it: a tick whose request cannot be
      built records the time without sending. */
  lemma {:induction false} RunSpacesSends(p: Plugin, s: State, events: seq<Event>)
    requires ValidPlugin(p)
    requires 0 <= s.lastUpdateTime && NonNegativeClock(events)
    ensures Spaced(s.lastUpdateTime, Run(p, s, events).sent)
    ensures LastSendTime(s.lastUpdateTime, Run(p, s, events).sent) <= Run(p, s, events).final.lastUpdateTime
    ensures s.lastUpdateTime <= Run(p, s, events).final.lastUpdateTime
    decreases |events|
  {
    if events != [] {
      var first := Step(p, s, events[0]);
      assert s.lastUpdateTime <= first.final.lastUpdateTime by {
        if first.final.lastUpdateTime != s.lastUpdateTime {
          assert events[0].GameTick? && 0 <= events[0].now;
        }
      }
      NonNegativeClockTail(events);
      RunSpacesSends(p, first.final, events[1..]);
      var rest := Run(p, first.final, events[1..]);
      if first.sent == [] {
        assert first.sent + rest.sent == rest.sent;
        SpacedWeaken(s.lastUpdateTime, first.final.lastUpdateTime, rest.sent);
      } else {
        assert s.lastUpdateTime + UPDATE_DELAY_MS <= first.sent[0].at by {
          assert events[0].GameTick? && 0 <= events[0].now;
        }
        SpacedCons(s.lastUpdateTime, first.sent[0], rest.sent);
        assert first.sent == [first.sent[0]];
      }
    }
  }

  /** Spacing after a later start implies spacing after an earlier one. */
  lemma SpacedWeaken(earlier: int, later: int, sent: seq<Sent>)
    requires earlier <= later && Spaced(later, sent)
    ensures Spaced(earlier, sent)
    ensures LastSendTime(earlier, sent) <= LastSendTime(later, sent)
  {
  }

  lemma NonNegativeClockTail(events: seq<Event>)
    requires events != [] && NonNegativeClock(events)
    ensures NonNegativeClock(events[1..])
  {
  }

  /** A send far enough after `last` can be put in front of a spaced sequence. */
  lemma SpacedCons(last: int, head: Sent, rest: seq<Sent>)
    requires last + UPDATE_DELAY_MS <= head.at
    requires Spaced(head.at, rest)
    ensures Spaced(last, [head] + rest)
    ensures LastSendTime(head.at, rest) == LastSendTime(last, [head] + rest)
  {
  }

  /** Spacing between neighbours gives spacing between any two sends. */
  lemma {:induction false} SpacedPairwise(last: int, sent: seq<Sent>)
    requires Spaced(last, sent)
    ensures forall i, j :: 0 <= i < j < |sent| ==> sent[i].at + UPDATE_DELAY_MS <= sent[j].at
    decreases |sent|
  {
    if |sent| > 1 {
      var init := sent[..|sent| - 1];
      assert Spaced(last, init) by {
        forall i | 0 < i < |init|
          ensures init[i - 1].at + UPDATE_DELAY_MS <= init[i].at
        {
          assert init[i] == sent[i] && init[i - 1] == sent[i - 1];
        }
      }
      SpacedPairwise(last, init);
      forall i, j | 0 <= i < j < |sent|
        ensures sent[i].at + UPDATE_DELAY_MS <= sent[j].at
      {
        if j < |sent| - 1 {
          assert init[i] == sent[i] && init[j] == sent[j];
        } else {
          assert sent[j - 1].at + UPDATE_DELAY_MS <= sent[j].at;
          if i < j - 1 {
            assert init[i] == sent[i] && init[j - 1] == sent[j - 1];
          }
        }
      }
    }
  }

  /** However the events burst, no two records are sent less than `UPDATE_DELAY_MS` apart. */
  lemma SendsAtLeastDelayApart(p: Plugin, s: State, events: seq<Event>)
    requires ValidPlugin(p)
    requires 0 <= s.lastUpdateTime && NonNegativeClock(events)
    ensures forall i, j :: 0 <= i < j < |Run(p, s, events).sent| ==>
      Run(p, s, events).sent[i].at + UPDATE_DELAY_MS <= Run(p, s, events).sent[j].at
  {
    RunSpacesSends(p, s, events);
    SpacedPairwise(s.lastUpdateTime, Run(p, s, events).sent);
  }

  /** The events that wipe the baselines: the login screen in both variants, and a shutdown
      in the trimmed one. */
  predicate ClearsBaselines(p: Plugin, e: Event) {
    (e.GameStateChanged? && e.gameState == LoginScreen) || (e.ShutDown? && p.Trimmed?)
  }

  /** Until a reset, a recorded baseline is never overwritten, however the skill is trained. */
  lemma {:induction false} BaselinesWrittenOnce(p: Plugin, s: State, events: seq<Event>)
    requires ValidPlugin(p)
    requires forall i :: 0 <= i < |events| ==> !ClearsBaselines(p, events[i])
    ensures forall k :: k in s.skillStartXp ==>
      k in Run(p, s, events).final.skillStartXp && Run(p, s, events).final.skillStartXp[k] == s.skillStartXp[k]
    decreases |events|
  {
    if events != [] {
      var first := Step(p, s, events[0]);
      assert !ClearsBaselines(p, events[0]);
      assert forall k :: k in s.skillStartXp ==> k in first.final.skillStartXp && first.final.skillStartXp[k] == s.skillStartXp[k];
      assert forall i :: 0 <= i < |events[1..]| ==> !ClearsBaselines(p, events[1..][i]) by {
        forall i | 0 <= i < |events[1..]|
          ensures !ClearsBaselines(p, events[1..][i])
        {
          assert events[1..][i] == events[i + 1];
        }
      }
      BaselinesWrittenOnce(p, first.final, events[1..]);
    }
  }

  /** Running `a` and then `b` is running `a + b`. */
  lemma {:induction false} RunAppend(p: Plugin, s: State, a: seq<Event>, b: seq<Event>)
    requires ValidPlugin(p)
    ensures Run(p, s, a + b).final == Run(p, Run(p, s, a).final, b).final
    ensures Run(p, s, a + b).sent == Run(p, s, a).sent + Run(p, Run(p, s, a).final, b).sent
    decreases |a|
  {
    if a == [] {
      assert a + b == b;
    } else {
      var first := Step(p, s, a[0]);
      assert (a + b)[0] == a[0];
      assert (a + b)[1..] == a[1..] + b;
      RunAppend(p, first.final, a[1..], b);
      var mid := Run(p, first.final, a[1..]);
      var last := Run(p, mid.final, b);
      assert first.sent + (mid.sent + last.sent) == (first.sent + mid.sent) + last.sent;
    }
  }

  /** A stat event that the handlers act on: not OVERALL and not ignored when it arrives. */
  predicate Tracked(e: Event) {
    e.StatChanged? && e.skill != Overall && !IsSkillIgnored(e.cfg, e.skill)
  }

  /** Events other than tracked stat events never record a baseline. */
  lemma {:induction false} UntrackedKeepsNoBaselines(p: Plugin, s: State, events: seq<Event>)
    requires ValidPlugin(p)
    requires s.skillStartXp == map[]
    requires forall i :: 0 <= i < |events| ==> !Tracked(events[i])
    ensures Run(p, s, events).final.skillStartXp == map[]
    decreases |events|
  {
    if events != [] {
      var first := Step(p, s, events[0]);
      assert !Tracked(events[0]);
      assert first.final.skillStartXp == map[];
      assert forall i :: 0 <= i < |events[1..]| ==> !Tracked(events[1..][i]) by {
        forall i | 0 <= i < |events[1..]|
          ensures !Tracked(events[1..][i])
        {
          assert events[1..][i] == events[i + 1];
        }
      }
      UntrackedKeepsNoBaselines(p, first.final, events[1..]);
    }
  }

  /** After a reset, whatever follows it short of a tracked stat event (the game states of
      logging in again, ticks, ignored skills, further resets), the next tracked event for a
      skill is a first sighting again: it leaves exactly one baseline, the XP of that moment. */
  lemma ResetThenStatRebaselines(
    p: Plugin, s: State, reset: Event, mid: seq<Event>, cfg: Config, skill: Skill, clientXp: Int32)
    requires ValidPlugin(p)
    requires ClearsBaselines(p, reset)
    requires forall i :: 0 <= i < |mid| ==> !Tracked(mid[i])
    requires skill != Overall && !IsSkillIgnored(cfg, skill)
    ensures Run(p, s, [reset] + mid + [StatChanged(cfg, skill, clientXp)]).final.skillStartXp
      == map[skill := clientXp]
  {
    var stat := StatChanged(cfg, skill, clientXp);
    var events := [reset] + mid + [stat];
    var s1 := Step(p, s, reset).final;
    assert s1.skillStartXp == map[];
    UntrackedKeepsNoBaselines(p, s1, mid);
    assert events[0] == reset;
    assert events[1..] == mid + [stat];
    RunAppend(p, s1, mid, [stat]);
    var s2 := Run(p, s1, mid).final;
    assert [stat][1..] == [];
    var s3 := Step(p, s2, stat).final;
    assert s3.skillStartXp.Keys == {skill} && s3.skillStartXp[skill] == clientXp;
    assert s3.skillStartXp == map[skill := clientXp];
  }

  /** An event that leaves a state with no last skill and no baselines as it is: a game-state
      change, a shutdown, or a tick that the throttle, the empty address or the empty
      selection stops. */
  predicate Quiet(s: State, e: Event) {
    || e.GameStateChanged?
    || e.ShutDown?
    || (e.GameTick? && !TickAttempts(s, e.cfg, e.now))
  }

  lemma {:induction false} QuietRunKeepsState(p: Plugin, s: State, events: seq<Event>)
    requires ValidPlugin(p)
    requires s.lastSkill.None? && s.skillStartXp == map[]
    requires forall i :: 0 <= i < |events| ==> Quiet(s, events[i])
    ensures Run(p, s, events) == Outcome(s, [])
    decreases |events|
  {
    if events != [] {
      assert Quiet(s, events[0]);
      assert Step(p, s, events[0]) == Outcome(s, []);
      assert forall i :: 0 <= i < |events[1..]| ==> Quiet(s, events[1..][i]) by {
        forall i | 0 <= i < |events[1..]|
          ensures Quiet(s, events[1..][i])
        {
          assert events[1..][i] == events[i + 1];
        }
      }
      QuietRunKeepsState(p, s, events[1..]);
    }
  }

  /** A reset does not cancel a pending update. However many game-state changes, shutdowns
      and stopped ticks follow it, the first tick that passes the throttle and can build its
      URL is the run's only send, reports the pending skill with 0 XP gained (its baseline is
      gone) and clears the pending flag. */
  lemma ResetKeepsPendingUpdate(
    p: Plugin, s: State, reset: Event, mid: seq<Event>,
    cfg: Config, now: Int64, client: Client, tracker: XpTracker)
    requires ValidPlugin(p)
    requires ClearsBaselines(p, reset)
    requires s.pendingUpdate && s.pendingSkill.Some?
    requires forall i :: 0 <= i < |mid| ==> Quiet(Step(p, s, reset).final, mid[i])
    requires cfg.esp32IpAddress != "" && DueForUpdate(s, now) && p.urlParses(UpdateUrl(cfg))
    ensures |Run(p, s, [reset] + mid + [GameTick(cfg, now, client, tracker)]).sent| == 1
    ensures Run(p, s, [reset] + mid + [GameTick(cfg, now, client, tracker)]).sent[0].report.ReportedSkill()
      == s.pendingSkill.value
    ensures Run(p, s, [reset] + mid + [GameTick(cfg, now, client, tracker)]).sent[0].report.XpGained() == 0
    ensures !Run(p, s, [reset] + mid + [GameTick(cfg, now, client, tracker)]).final.pendingUpdate
  {
    var tick := GameTick(cfg, now, client, tracker);
    var events := [reset] + mid + [tick];
    var first := Step(p, s, reset);
    var s1 := first.final;
    assert first.sent == [];
    assert s1 == s.(lastSkill := None, skillStartXp := map[]);
    QuietRunKeepsState(p, s1, mid);
    assert events[0] == reset;
    assert events[1..] == mid + [tick];
    RunAppend(p, s1, mid, [tick]);
    assert [tick][1..] == [];
    assert TickAttempts(s1, cfg, now);
    var last := Step(p, s1, tick);
    assert |last.sent| == 1;
    assert Run(p, s, events).sent == last.sent;
  }

  /** Whether the state would let a tick report `skill`. */
  predicate Selects(s: State, skill: Skill) {
    s.lastSkill == Some(skill) || s.pendingSkill == Some(skill)
  }

  /** A skill that was ignored whenever one of its stat events arrived is never reported.
      Only the setting at the time of the stat event counts: ticks do not consult it. */
  lemma {:induction false} IgnoredNeverSent(p: Plugin, s: State, events: seq<Event>, skill: Skill)
    requires ValidPlugin(p)
    requires !Selects(s, skill)
    requires forall i :: 0 <= i < |events| && events[i].StatChanged? && events[i].skill == skill ==>
      IsSkillIgnored(events[i].cfg, skill)
    ensures !Selects(Run(p, s, events).final, skill)
    ensures forall i :: 0 <= i < |Run(p, s, events).sent| ==> Run(p, s, events).sent[i].report.ReportedSkill() != skill
    decreases |events|
  {
    if events != [] {
      var first := Step(p, s, events[0]);
      StepKeepsUnselected(p, s, events[0], skill);
      IgnoredTail(events, skill);
      IgnoredNeverSent(p, first.final, events[1..], skill);
      var rest := Run(p, first.final, events[1..]);
      var all := first.sent + rest.sent;
      forall i | 0 <= i < |all|
        ensures all[i].report.ReportedSkill() != skill
      {
        if i >= |first.sent| {
          assert all[i] == rest.sent[i - |first.sent|];
        }
      }
    }
  }

  /** A step neither selects an unselected skill nor reports it, unless a stat event for it
      arrives while it is not ignored. */
  lemma StepKeepsUnselected(p: Plugin, s: State, e: Event, skill: Skill)
    requires ValidPlugin(p)
    requires !Selects(s, skill)
    requires e.StatChanged? && e.skill == skill ==> IsSkillIgnored(e.cfg, skill)
    ensures !Selects(Step(p, s, e).final, skill)
    ensures Step(p, s, e).sent != [] ==> Step(p, s, e).sent[0].report.ReportedSkill() != skill
  {
  }

  lemma IgnoredTail(events: seq<Event>, skill: Skill)
    requires events != []
    requires forall i :: 0 <= i < |events| && events[i].StatChanged? && events[i].skill == skill ==>
      IsSkillIgnored(events[i].cfg, skill)
    ensures forall i :: 0 <= i < |events[1..]| && events[1..][i].StatChanged? && events[1..][i].skill == skill ==>
      IsSkillIgnored(events[1..][i].cfg, skill)
  {
  }
}
