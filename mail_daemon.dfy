/** MailDaemon.applyRule, MailDaemon.doDaemonAction and the global `start`
    of src/app/mail.js, as methods on the host and the timer, each proved to
    do what MailEngine says. A `return` out of one of applyRule's inner loops
    is an inner method returning `stopped`, on which its caller returns. */
module MailDaemon {
  import opened Wrappers
  import opened MailTimer
  import opened MailHost
  import opened MailRules
  import opened MailEngine

  ghost function GuardOf(timer: Timer): Guard
    reads timer
  {
    Guard(timer.clock.reading, timer.endTime)
  }

  lemma RunSingle(s: MailState, e: Effect, g: Guard, p: nat)
    ensures Run(s, [Do(e)], g, p) == Outcome(Apply(s, e), p, false)
  {
    assert [Do(e)][1..] == [];
  }

  /** A check followed by x and then rest. */
  lemma RunCheckThen(s: MailState, x: seq<Step>, rest: seq<Step>, g: Guard, p: nat)
    ensures Run(s, [Check] + x + rest, g, p) ==
      if g.Passes(p) then Run(s, x + rest, g, p + 1) else Outcome(s, p + 1, true)
  {
    assert [Check] + x + rest == [Check] + (x + rest);
    RunCons(s, Check, x + rest, g, p);
  }

  /** One pass of a label or message loop: a check, then one effect. */
  lemma RunCheckDo(s: MailState, e: Effect, rest: seq<Step>, g: Guard, p: nat)
    ensures Run(s, [Check, Do(e)] + rest, g, p) ==
      if g.Passes(p) then Run(Apply(s, e), rest, g, p + 1) else Outcome(s, p + 1, true)
  {
    assert [Check, Do(e)] + rest == [Check] + ([Do(e)] + rest);
    RunCons(s, Check, [Do(e)] + rest, g, p);
    RunCons(s, Do(e), rest, g, p + 1);
  }

  /** One pass of a loop with a check in front of its body: a failing check
      ends the run; otherwise the body runs, and unless it stopped the rest follows. */
  lemma LoopStep(s: MailState, x: seq<Step>, rest: seq<Step>, g: Guard, p: nat, goal: Outcome)
    requires Run(s, [Check] + x + rest, g, p) == goal
    ensures !g.Passes(p) ==> goal == Outcome(s, p + 1, true)
    ensures g.Passes(p) ==>
      var o := Run(s, x, g, p + 1);
      Counts(o.state) == Counts(s) && if o.stopped then o == goal else Run(o.state, rest, g, o.pos) == goal
  {
    RunCheckThen(s, x, rest, g, p);
    if g.Passes(p) {
      RunAppend(s, x, rest, g, p + 1);
      RunKeepsCounts(s, x, g, p + 1);
    }
  }

  lemma LabelStepsUnfold(id: ThreadId, names: seq<string>, l: nat, attach: bool)
    requires l < |names|
    ensures LabelSteps(id, names[l..], attach) ==
      [Check, Do(LabelEffect(id, names[l], attach))] + LabelSteps(id, names[l + 1..], attach)
  {
    assert names[l..][1..] == names[l + 1..];
  }

  /** The APPLY_LABEL loop: for each name, a check, then the label is looked
      up, created when the user does not have it, and added to the thread. */
  method AttachLabels(timer: Timer, host: Mailbox, id: ThreadId, names: seq<string>) returns (stopped: bool)
    requires id in host.threads
    modifies timer.clock, host
    ensures var o := Run(old(host.State()), LabelSteps(id, names, true), GuardOf(timer), old(timer.clock.taken));
      host.State() == o.state && timer.clock.taken == o.pos && stopped == o.stopped
  {
    ghost var goal := Run(host.State(), LabelSteps(id, names, true), GuardOf(timer), timer.clock.taken);
    assert names[0..] == names;
    var l := 0;
    while l < |names|
      invariant 0 <= l <= |names|
      invariant id in host.threads
      invariant Run(host.State(), LabelSteps(id, names[l..], true), GuardOf(timer), timer.clock.taken) == goal
    {
      LabelStepsUnfold(id, names, l, true);
      RunCheckDo(host.State(), AttachLabel(id, names[l]), LabelSteps(id, names[l + 1..], true),
                   GuardOf(timer), timer.clock.taken);
      var go := timer.CanContinue();
      if !go {
        return true;
      }
      var name := names[l];
      var found := host.HasUserLabel(name);
      if !found {
        host.CreateLabel(name);
      }
      host.AddLabel(id, name);
      l := l + 1;
    }
    return false;
  }

  /** The REMOVE_LABEL loop: for each name, a check, then a label the user has
      is taken off the thread and one the user does not have is skipped. */
  method DetachLabels(timer: Timer, host: Mailbox, id: ThreadId, names: seq<string>) returns (stopped: bool)
    requires id in host.threads
    modifies timer.clock, host
    ensures var o := Run(old(host.State()), LabelSteps(id, names, false), GuardOf(timer), old(timer.clock.taken));
      host.State() == o.state && timer.clock.taken == o.pos && stopped == o.stopped
  {
    ghost var goal := Run(host.State(), LabelSteps(id, names, false), GuardOf(timer), timer.clock.taken);
    assert names[0..] == names;
    var l := 0;
    while l < |names|
      invariant 0 <= l <= |names|
      invariant id in host.threads
      invariant Run(host.State(), LabelSteps(id, names[l..], false), GuardOf(timer), timer.clock.taken) == goal
    {
      LabelStepsUnfold(id, names, l, false);
      RunCheckDo(host.State(), DetachLabel(id, names[l]), LabelSteps(id, names[l + 1..], false),
                   GuardOf(timer), timer.clock.taken);
      var go := timer.CanContinue();
      if !go {
        return true;
      }
      var name := names[l];
      var found := host.HasUserLabel(name);
      if found {
        host.RemoveLabel(id, name);
      }
      l := l + 1;
    }
    return false;
  }

  /** The STAR_MESSAGES / UNSTAR_MESSAGES loop over the thread's messages. */
  method SetStars(timer: Timer, host: Mailbox, id: ThreadId, star: bool) returns (stopped: bool)
    requires id in host.threads
    modifies timer.clock, host
    ensures var o := Run(old(host.State()), StarSteps(id, 0, |old(host.threads[id].starred)|, star),
                         GuardOf(timer), old(timer.clock.taken));
      host.State() == o.state && timer.clock.taken == o.pos && stopped == o.stopped
  {
    var n := host.MessageCount(id);
    ghost var goal := Run(host.State(), StarSteps(id, 0, n, star), GuardOf(timer), timer.clock.taken);
    var m := 0;
    while m < n
      invariant 0 <= m <= n
      invariant id in host.threads && |host.threads[id].starred| == n
      invariant Run(host.State(), StarSteps(id, m, n, star), GuardOf(timer), timer.clock.taken) == goal
      decreases n - m
    {
      RunCheckDo(host.State(), SetStar(id, m, star), StarSteps(id, m + 1, n, star),
                   GuardOf(timer), timer.clock.taken);
      var go := timer.CanContinue();
      if !go {
        return true;
      }
      host.Star(id, m, star);
      m := m + 1;
    }
    return false;
  }

  /** The `switch (action.type)` of applyRule on one thread. */
  method ApplyAction(timer: Timer, host: Mailbox, id: ThreadId, action: Action) returns (stopped: bool)
    requires id in host.threads
    modifies timer.clock, host
    ensures var o := Run(old(host.State()), ActionSteps(Counts(old(host.State())), id, action),
                         GuardOf(timer), old(timer.clock.taken));
      host.State() == o.state && timer.clock.taken == o.pos && stopped == o.stopped
  {
    ghost var s := host.State();
    ghost var g := GuardOf(timer);
    ghost var p := timer.clock.taken;
    ActionStepsCase(Counts(s), id, action);
    assert CountOf(Counts(s), id) == |host.threads[id].starred|;
    stopped := false;
    match SwitchCase(action.actionType)
    case Some(ApplyLabel) =>
      stopped := AttachLabels(timer, host, id, action.parameter1);
    case Some(MarkAsImportant) =>
      host.MarkImportant(id, true);
      RunSingle(s, SetImportant(id, true), g, p);
    case Some(MarkAsRead) =>
      host.MarkRead(id, true);
      RunSingle(s, SetRead(id, true), g, p);
    case Some(MarkAsUnimportant) =>
      host.MarkImportant(id, false);
      RunSingle(s, SetImportant(id, false), g, p);
    case Some(MarkAsUnread) =>
      host.MarkRead(id, false);
      RunSingle(s, SetRead(id, false), g, p);
    case Some(MoveToArchive) =>
      host.MoveTo(id, Archive);
      RunSingle(s, Effect.MoveTo(id, Archive), g, p);
    case Some(MoveToInbox) =>
      host.MoveTo(id, Inbox);
      RunSingle(s, Effect.MoveTo(id, Inbox), g, p);
    case Some(MoveToSpam) =>
      host.MoveTo(id, Spam);
      RunSingle(s, Effect.MoveTo(id, Spam), g, p);
    case Some(MoveToTrash) =>
      host.MoveTo(id, Trash);
      RunSingle(s, Effect.MoveTo(id, Trash), g, p);
    case Some(RemoveLabel) =>
      stopped := DetachLabels(timer, host, id, action.parameter1);
    case Some(StarMessages) =>
      stopped := SetStars(timer, host, id, true);
    case Some(UnstarMessages) =>
      stopped := SetStars(timer, host, id, false);
    case _ =>
  }

  lemma ActionsStepsUnfold(c: map<ThreadId, nat>, id: ThreadId, actions: seq<Action>, a: nat)
    requires a < |actions|
    ensures ActionsSteps(c, id, actions[a..]) ==
      [Check] + ActionSteps(c, id, actions[a]) + ActionsSteps(c, id, actions[a + 1..])
  {
    assert actions[a..][1..] == actions[a + 1..];
  }

  lemma ThreadsStepsUnfold(c: map<ThreadId, nat>, ids: seq<ThreadId>, actions: seq<Action>, t: nat)
    requires t < |ids|
    ensures ThreadsSteps(c, ids[t..], actions) ==
      [Check] + ActionsSteps(c, ids[t], actions) + ThreadsSteps(c, ids[t + 1..], actions)
  {
    assert ids[t..][1..] == ids[t + 1..];
  }

  /** The action loop of applyRule on one thread. */
  method ApplyActions(timer: Timer, host: Mailbox, id: ThreadId, actions: seq<Action>) returns (stopped: bool)
    requires id in host.threads
    modifies timer.clock, host
    ensures var o := Run(old(host.State()), ActionsSteps(Counts(old(host.State())), id, actions),
                         GuardOf(timer), old(timer.clock.taken));
      host.State() == o.state && timer.clock.taken == o.pos && stopped == o.stopped
  {
    ghost var c := Counts(host.State());
    ghost var goal := Run(host.State(), ActionsSteps(c, id, actions), GuardOf(timer), timer.clock.taken);
    assert actions[0..] == actions;
    var a := 0;
    while a < |actions|
      invariant 0 <= a <= |actions|
      invariant id in host.threads && Counts(host.State()) == c
      invariant Run(host.State(), ActionsSteps(c, id, actions[a..]), GuardOf(timer), timer.clock.taken) == goal
    {
      ghost var s := host.State();
      ghost var p := timer.clock.taken;
      ghost var x := ActionSteps(c, id, actions[a]);
      ghost var rest := ActionsSteps(c, id, actions[a + 1..]);
      ActionsStepsUnfold(c, id, actions, a);
      LoopStep(s, x, rest, GuardOf(timer), p, goal);
      var go := timer.CanContinue();
      if !go {
        return true;
      }
      ghost var o := Run(s, x, GuardOf(timer), p + 1);
      stopped := ApplyAction(timer, host, id, actions[a]);
      assert host.State() == o.state && timer.clock.taken == o.pos && stopped == o.stopped;
      if stopped {
        return;
      }
      a := a + 1;
    }
    return false;
  }

  /** MailDaemon.applyRule(threads, rule): for each thread found, a check, then
      every action of the rule; any failing check ends the call. */
  method ApplyRule(timer: Timer, host: Mailbox, threads: seq<ThreadId>, rule: Rule)
    requires forall k :: 0 <= k < |threads| ==> threads[k] in host.threads
    modifies timer.clock, host
    ensures var o := Run(old(host.State()), ThreadsSteps(Counts(old(host.State())), threads, rule.actions),
                         GuardOf(timer), old(timer.clock.taken));
      host.State() == o.state && timer.clock.taken == o.pos
  {
    ghost var c := Counts(host.State());
    ghost var keys := host.threads.Keys;
    ghost var goal := Run(host.State(), ThreadsSteps(c, threads, rule.actions), GuardOf(timer), timer.clock.taken);
    assert threads[0..] == threads;
    var t := 0;
    while t < |threads|
      invariant 0 <= t <= |threads|
      invariant Counts(host.State()) == c && host.threads.Keys == keys
      invariant Run(host.State(), ThreadsSteps(c, threads[t..], rule.actions), GuardOf(timer), timer.clock.taken) == goal
    {
      ghost var s := host.State();
      ghost var p := timer.clock.taken;
      ghost var x := ActionsSteps(c, threads[t], rule.actions);
      ghost var rest := ThreadsSteps(c, threads[t + 1..], rule.actions);
      ThreadsStepsUnfold(c, threads, rule.actions, t);
      LoopStep(s, x, rest, GuardOf(timer), p, goal);
      var go := timer.CanContinue();
      if !go {
        return;
      }
      ghost var o := Run(s, x, GuardOf(timer), p + 1);
      var stopped := ApplyActions(timer, host, threads[t], rule.actions);
      assert host.State() == o.state && timer.clock.taken == o.pos && stopped == o.stopped;
      if stopped {
        return;
      }
      t := t + 1;
    }
  }

  /** MailDaemon.doDaemonAction(rule): for each search, a check, then the host
      search and applyRule on the threads it found. */
  method DoDaemonAction(timer: Timer, host: Mailbox, rule: Rule)
    requires SearchSound(host.search)
    modifies timer.clock, host
    ensures var o := DaemonRun(old(host.State()), rule.searches, rule.actions, host.search,
                               GuardOf(timer), old(timer.clock.taken));
      host.State() == o.state && timer.clock.taken == o.pos
  {
    ghost var goal := DaemonRun(host.State(), rule.searches, rule.actions, host.search, GuardOf(timer), timer.clock.taken);
    assert rule.searches[0..] == rule.searches;
    var i := 0;
    while i < |rule.searches|
      invariant 0 <= i <= |rule.searches|
      invariant var o := DaemonRun(host.State(), rule.searches[i..], rule.actions, host.search,
                                   GuardOf(timer), timer.clock.taken);
        o.state == goal.state && o.pos == goal.pos
    {
      assert rule.searches[i..][0] == rule.searches[i] && rule.searches[i..][1..] == rule.searches[i + 1..];
      var go := timer.CanContinue();
      if !go {
        return;
      }
      var threads := host.Search(rule.searches[i]);
      ApplyRule(timer, host, threads, rule);
      i := i + 1;
    }
  }

  /** The rule loop of the global start(): for each rule, a check, then doDaemonAction. */
  method RunRules(timer: Timer, host: Mailbox, rules: seq<Rule>)
    requires SearchSound(host.search)
    modifies timer.clock, host
    ensures var o := RulesRun(old(host.State()), rules, host.search, GuardOf(timer), old(timer.clock.taken));
      host.State() == o.state && timer.clock.taken == o.pos
  {
    ghost var goal := RulesRun(host.State(), rules, host.search, GuardOf(timer), timer.clock.taken);
    assert rules[0..] == rules;
    var r := 0;
    while r < |rules|
      invariant 0 <= r <= |rules|
      invariant var o := RulesRun(host.State(), rules[r..], host.search, GuardOf(timer), timer.clock.taken);
        o.state == goal.state && o.pos == goal.pos
    {
      assert rules[r..][0] == rules[r] && rules[r..][1..] == rules[r + 1..];
      var go := timer.CanContinue();
      if !go {
        return;
      }
      DoDaemonAction(timer, host, rules[r]);
      r := r + 1;
    }
  }

  /** The global start(): getRules (its `new Date()` is the first clock
      reading), timer.start (the second), then the rule loop. */
  method Start(timer: Timer, host: Mailbox)
    requires SearchSound(host.search)
    modifies timer, timer.clock, host
    ensures var p := old(timer.clock.taken);
      timer.startTime == Some(timer.clock.reading(p + 1))
      && timer.endTime == Some(timer.clock.reading(p + 1) + Budget)
      && var o := RulesRun(old(host.State()), [ArchiveRule(timer.clock.reading(p))], host.search,
                           GuardOf(timer), p + 2);
         host.State() == o.state && timer.clock.taken == o.pos
  {
    var now := timer.clock.Now();
    var rules := GetRules(now);
    timer.Start();
    RunRules(timer, host, rules);
  }
}
