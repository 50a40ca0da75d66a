/** The meaning of MailDaemon.applyRule, doDaemonAction and start
    (src/app/mail.js:47-186, 261-274, 340-356). The nested loops of applyRule
    perform a flat list of steps: a `Check` of the time guard before every
    unit of work, and a `Do` for every host mutation. `Run` performs the list
    until the first failing check. */
module MailEngine {
  import opened Wrappers
  import opened MailTimer
  import opened MailHost
  import opened MailRules

  /** The clock readings and the deadline that canContinue compares them with. */
  datatype Guard = Guard(reading: nat -> int, endTime: Option<int>) {
    predicate Passes(p: nat) {
      Before(reading(p), endTime)
    }
  }

  datatype Step = Check | Do(effect: Effect)

  /** The state reached, the number of clock readings taken, and whether a check failed. */
  datatype Outcome = Outcome(state: MailState, pos: nat, stopped: bool)

  function Run(s: MailState, steps: seq<Step>, g: Guard, p: nat): Outcome
    decreases |steps|
  {
    if steps == [] then Outcome(s, p, false)
    else match steps[0]
      case Check => if g.Passes(p) then Run(s, steps[1..], g, p + 1) else Outcome(s, p + 1, true)
      case Do(e) => Run(Apply(s, e), steps[1..], g, p)
  }

  // ------------------------------------------------------------ the step lists

  function LabelEffect(id: ThreadId, name: string, attach: bool): Effect {
    if attach then AttachLabel(id, name) else DetachLabel(id, name)
  }

  /** The label loop of APPLY_LABEL (attach) or REMOVE_LABEL (detach). */
  function LabelSteps(id: ThreadId, names: seq<string>, attach: bool): seq<Step> {
    if names == [] then []
    else [Check, Do(LabelEffect(id, names[0], attach))] + LabelSteps(id, names[1..], attach)
  }

  /** The message loop of STAR_MESSAGES / UNSTAR_MESSAGES from message m on. */
  function StarSteps(id: ThreadId, m: nat, n: nat, star: bool): seq<Step>
    decreases n - m
  {
    if m >= n then [] else [Check, Do(SetStar(id, m, star))] + StarSteps(id, m + 1, n, star)
  }

  function CountOf(counts: map<ThreadId, nat>, id: ThreadId): nat {
    if id in counts then counts[id] else 0
  }

  /** The steps of one case of the switch on one thread. */
  function CaseSteps(k: ActionKind, counts: map<ThreadId, nat>, id: ThreadId, names: seq<string>): seq<Step> {
    match k
    case ApplyLabel => LabelSteps(id, names, true)
    case MarkAsImportant => [Do(SetImportant(id, true))]
    case MarkAsRead => [Do(SetRead(id, true))]
    case MarkAsUnimportant => [Do(SetImportant(id, false))]
    case MarkAsUnread => [Do(SetRead(id, false))]
    case MoveToArchive => [Do(MoveTo(id, Archive))]
    case MoveToInbox => [Do(MoveTo(id, Inbox))]
    case MoveToSpam => [Do(MoveTo(id, Spam))]
    case MoveToTrash => [Do(MoveTo(id, Trash))]
    case RemoveLabel => LabelSteps(id, names, false)
    case StarMessages => StarSteps(id, 0, CountOf(counts, id), true)
    case UnstarMessages => StarSteps(id, 0, CountOf(counts, id), false)
    case ClearLabel => []
  }

  /** The switch: the cases are tried in order and the first whose type
      string equals t runs; with no match nothing happens. */
  function SwitchSteps(t: string, cases: seq<ActionKind>, counts: map<ThreadId, nat>, id: ThreadId,
                       names: seq<string>): seq<Step>
  {
    if cases == [] then []
    else if t == TypeName(cases[0]) then CaseSteps(cases[0], counts, id, names)
    else SwitchSteps(t, cases[1..], counts, id, names)
  }

  /** The steps of one action on one thread. */
  function ActionSteps(counts: map<ThreadId, nat>, id: ThreadId, a: Action): seq<Step> {
    SwitchSteps(a.actionType, SwitchOrder, counts, id, a.parameter1)
  }

  /** The switch runs the case that SwitchCase selects, and nothing when it selects none. */
  lemma {:induction false} SwitchStepsCase(t: string, cases: seq<ActionKind>, counts: map<ThreadId, nat>,
                                           id: ThreadId, names: seq<string>)
    ensures SwitchSteps(t, cases, counts, id, names) ==
      match FirstCase(t, cases)
      case Some(k) => CaseSteps(k, counts, id, names)
      case None => []
  {
    if cases != [] && t != TypeName(cases[0]) {
      SwitchStepsCase(t, cases[1..], counts, id, names);
    }
  }

  lemma ActionStepsCase(counts: map<ThreadId, nat>, id: ThreadId, a: Action)
    ensures ActionSteps(counts, id, a) ==
      match SwitchCase(a.actionType)
      case Some(k) => CaseSteps(k, counts, id, a.parameter1)
      case None => []
  {
    SwitchStepsCase(a.actionType, SwitchOrder, counts, id, a.parameter1);
  }

  /** The action loop: a check before each action. */
  function ActionsSteps(counts: map<ThreadId, nat>, id: ThreadId, actions: seq<Action>): seq<Step> {
    if actions == [] then []
    else [Check] + ActionSteps(counts, id, actions[0]) + ActionsSteps(counts, id, actions[1..])
  }

  /** The thread loop: a check before each thread. */
  function ThreadsSteps(counts: map<ThreadId, nat>, ids: seq<ThreadId>, actions: seq<Action>): seq<Step> {
    if ids == [] then []
    else [Check] + ActionsSteps(counts, ids[0], actions) + ThreadsSteps(counts, ids[1..], actions)
  }

  /** doDaemonAction: for each search, a check, then the host search and applyRule
      on what it found. It goes on to the next search even after applyRule
      returned early; the next check then decides. */
  function DaemonRun(s: MailState, searches: seq<string>, actions: seq<Action>,
                     search: (string, map<ThreadId, Thread>) -> seq<ThreadId>, g: Guard, p: nat): Outcome
    decreases |searches|
  {
    if searches == [] then Outcome(s, p, false)
    else if !g.Passes(p) then Outcome(s, p + 1, true)
    else
      var o := Run(s, ThreadsSteps(Counts(s), search(searches[0], s.threads), actions), g, p + 1);
      DaemonRun(o.state, searches[1..], actions, search, g, o.pos)
  }

  /** The loop of start(): for each rule, a check, then doDaemonAction. */
  function RulesRun(s: MailState, rules: seq<Rule>,
                    search: (string, map<ThreadId, Thread>) -> seq<ThreadId>, g: Guard, p: nat): Outcome
    decreases |rules|
  {
    if rules == [] then Outcome(s, p, false)
    else if !g.Passes(p) then Outcome(s, p + 1, true)
    else
      var o := DaemonRun(s, rules[0].searches, rules[0].actions, search, g, p + 1);
      RulesRun(o.state, rules[1..], search, g, o.pos)
  }

  // ------------------------------------------------------- running step lists

  /** One step of a run. */
  lemma RunCons(s: MailState, st: Step, rest: seq<Step>, g: Guard, p: nat)
    ensures Run(s, [st] + rest, g, p) ==
      match st
      case Check => if g.Passes(p) then Run(s, rest, g, p + 1) else Outcome(s, p + 1, true)
      case Do(e) => Run(Apply(s, e), rest, g, p)
  {
    assert ([st] + rest)[0] == st;
    assert ([st] + rest)[1..] == rest;
  }

  /** Running a + b runs a, and then b unless a stopped. */
  lemma {:induction false} RunAppend(s: MailState, a: seq<Step>, b: seq<Step>, g: Guard, p: nat)
    ensures Run(s, a + b, g, p) ==
      var o := Run(s, a, g, p); if o.stopped then o else Run(o.state, b, g, o.pos)
    decreases |a|
  {
    if a == [] {
      assert a + b == b;
    } else {
      assert a + b == [a[0]] + (a[1..] + b);
      assert a == [a[0]] + a[1..];
      RunCons(s, a[0], a[1..] + b, g, p);
      RunCons(s, a[0], a[1..], g, p);
      match a[0]
      case Check =>
        if g.Passes(p) { RunAppend(s, a[1..], b, g, p + 1); }
      case Do(e) =>
        RunAppend(Apply(s, e), a[1..], b, g, p);
    }
  }

  /** No run changes the set of threads or any thread's message count. */
  lemma {:induction false} RunKeepsCounts(s: MailState, steps: seq<Step>, g: Guard, p: nat)
    ensures Counts(Run(s, steps, g, p).state) == Counts(s)
    ensures Run(s, steps, g, p).pos >= p
    decreases |steps|
  {
    if steps != [] {
      match steps[0]
      case Check =>
        if g.Passes(p) { RunKeepsCounts(s, steps[1..], g, p + 1); }
      case Do(e) =>
        ApplyKeepsCounts(s, e);
        RunKeepsCounts(Apply(s, e), steps[1..], g, p);
    }
  }

  /** A run that stops does so at a failing check, and takes no reading after it. */
  lemma {:induction false} RunStopsOnFailedCheck(s: MailState, steps: seq<Step>, g: Guard, p: nat)
    ensures var o := Run(s, steps, g, p); o.stopped ==> o.pos > 0 && !g.Passes(o.pos - 1)
    decreases |steps|
  {
    if steps != [] {
      match steps[0]
      case Check =>
        if g.Passes(p) { RunStopsOnFailedCheck(s, steps[1..], g, p + 1); }
      case Do(e) =>
        RunStopsOnFailedCheck(Apply(s, e), steps[1..], g, p);
    }
  }

  // ------------------------------------------------- the same lists, untimed

  /** The mutations of a step list, in order. */
  function Effects(steps: seq<Step>): seq<Effect> {
    if steps == [] then []
    else (if steps[0].Do? then [steps[0].effect] else []) + Effects(steps[1..])
  }

  /** The number of checks in a step list. */
  function CheckCount(steps: seq<Step>): nat {
    if steps == [] then 0 else (if steps[0].Check? then 1 else 0) + CheckCount(steps[1..])
  }

  /** Performs mutations one after the other. */
  function ApplyAll(s: MailState, effects: seq<Effect>): MailState
    decreases |effects|
  {
    if effects == [] then s else ApplyAll(Apply(s, effects[0]), effects[1..])
  }

  lemma {:induction false} ApplyAllAppend(s: MailState, a: seq<Effect>, b: seq<Effect>)
    ensures ApplyAll(s, a + b) == ApplyAll(ApplyAll(s, a), b)
    decreases |a|
  {
    if a == [] {
      assert a + b == b;
    } else {
      assert (a + b)[0] == a[0] && (a + b)[1..] == a[1..] + b;
      ApplyAllAppend(Apply(s, a[0]), a[1..], b);
    }
  }

  lemma {:induction false} EffectsAppend(a: seq<Step>, b: seq<Step>)
    ensures Effects(a + b) == Effects(a) + Effects(b)
    ensures CheckCount(a + b) == CheckCount(a) + CheckCount(b)
    decreases |a|
  {
    if a == [] {
      assert a + b == b;
    } else {
      assert (a + b)[0] == a[0] && (a + b)[1..] == a[1..] + b;
      EffectsAppend(a[1..], b);
    }
  }

  /** With time to spare for every check, a run performs every mutation of the
      list, in order, and stops nowhere. */
  lemma {:induction false} RunUntimed(s: MailState, steps: seq<Step>, g: Guard, p: nat)
    requires forall j: nat :: p <= j < p + CheckCount(steps) ==> g.Passes(j)
    ensures Run(s, steps, g, p) == Outcome(ApplyAll(s, Effects(steps)), p + CheckCount(steps), false)
    decreases |steps|
  {
    if steps != [] {
      match steps[0]
      case Check =>
        assert CheckCount(steps) == 1 + CheckCount(steps[1..]);
        assert Effects(steps) == Effects(steps[1..]);
        assert g.Passes(p);
        RunUntimed(s, steps[1..], g, p + 1);
      case Do(e) =>
        RunUntimed(Apply(s, e), steps[1..], g, p);
    }
  }

  /** How a run ends after k steps: it performed exactly the mutations of the
      first k steps, every check among them passed, and it either finished the
      list or stopped at the failing check at step k. */
  ghost predicate EndsAfter(s: MailState, steps: seq<Step>, g: Guard, p: nat, k: nat, o: Outcome)
    requires k <= |steps|
  {
    && o.state == ApplyAll(s, Effects(steps[..k]))
    && (forall j: nat :: p <= j < p + CheckCount(steps[..k]) ==> g.Passes(j))
    && if o.stopped then
         k < |steps| && steps[k] == Check && !g.Passes(p + CheckCount(steps[..k]))
         && o.pos == p + CheckCount(steps[..k]) + 1
       else
         k == |steps| && o.pos == p + CheckCount(steps)
  }

  lemma PrefixSucc(steps: seq<Step>, k: nat)
    requires steps != [] && k < |steps|
    ensures steps[..k + 1] == [steps[0]] + steps[1..][..k]
  {
  }

  lemma PrefixCheck(s: MailState, steps: seq<Step>, g: Guard, p: nat, k: nat, o: Outcome)
    requires steps != [] && steps[0] == Check && g.Passes(p) && k <= |steps| - 1
    requires EndsAfter(s, steps[1..], g, p + 1, k, o)
    ensures EndsAfter(s, steps, g, p, k + 1, o)
  {
    var rest := steps[1..];
    PrefixSucc(steps, k);
    EffectsAppend([Check], rest[..k]);
    assert Effects([Check]) == [] && CheckCount([Check]) == 1;
    assert Effects(steps[..k + 1]) == Effects(rest[..k]);
    if !o.stopped {
      assert rest[..k] == rest && steps[..k + 1] == steps;
    } else {
      assert steps[k + 1] == rest[k];
    }
  }

  lemma PrefixDo(s: MailState, steps: seq<Step>, e: Effect, g: Guard, p: nat, k: nat, o: Outcome)
    requires steps != [] && steps[0] == Do(e) && k <= |steps| - 1
    requires EndsAfter(Apply(s, e), steps[1..], g, p, k, o)
    ensures EndsAfter(s, steps, g, p, k + 1, o)
  {
    var rest := steps[1..];
    PrefixSucc(steps, k);
    EffectsAppend([Do(e)], rest[..k]);
    assert Effects([Do(e)]) == [e] && CheckCount([Do(e)]) == 0;
    ApplyAllAppend(s, [e], Effects(rest[..k]));
    if !o.stopped {
      assert rest[..k] == rest && steps[..k + 1] == steps;
    } else {
      assert steps[k + 1] == rest[k];
    }
  }

  /** A timed run performs a prefix of the untimed mutations: those before the
      first failing check, and no other. */
  lemma {:induction false} RunPerformsPrefix(s: MailState, steps: seq<Step>, g: Guard, p: nat)
    ensures exists k: nat :: k <= |steps| && EndsAfter(s, steps, g, p, k, Run(s, steps, g, p))
    decreases |steps|
  {
    var o := Run(s, steps, g, p);
    if steps == [] {
      assert EndsAfter(s, steps, g, p, 0, o);
    } else {
      var rest := steps[1..];
      match steps[0]
      case Check =>
        if g.Passes(p) {
          RunPerformsPrefix(s, rest, g, p + 1);
          var k: nat :| k <= |rest| && EndsAfter(s, rest, g, p + 1, k, o);
          PrefixCheck(s, steps, g, p, k, o);
        } else {
          assert steps[..0] == [];
          assert EndsAfter(s, steps, g, p, 0, o);
        }
      case Do(e) =>
        RunPerformsPrefix(Apply(s, e), rest, g, p);
        var k: nat :| k <= |rest| && EndsAfter(Apply(s, e), rest, g, p, k, o);
        PrefixDo(s, steps, e, g, p, k, o);
    }
  }

  // ----------------------------------------------------- early exit

  /** After a failed check on a clock that never runs backwards,
      doDaemonAction makes no host mutation and returns. */
  lemma {:induction false} DaemonRunAfterExpiry(s: MailState, searches: seq<string>, actions: seq<Action>,
                                                search: (string, map<ThreadId, Thread>) -> seq<ThreadId>,
                                                g: Guard, p: nat)
    requires Monotone(g.reading) && p > 0 && !g.Passes(p - 1)
    ensures DaemonRun(s, searches, actions, search, g, p).state == s
  {
    if searches != [] {
      ExpiryIsFinal(g.reading, g.endTime, p - 1, p);
    }
  }

  /** ... and so does start's rule loop. */
  lemma {:induction false} RulesRunAfterExpiry(s: MailState, rules: seq<Rule>,
                                               search: (string, map<ThreadId, Thread>) -> seq<ThreadId>,
                                               g: Guard, p: nat)
    requires Monotone(g.reading) && p > 0 && !g.Passes(p - 1)
    ensures RulesRun(s, rules, search, g, p).state == s
  {
    if rules != [] {
      ExpiryIsFinal(g.reading, g.endTime, p - 1, p);
    }
  }

  /** Once applyRule has returned early on one search, doDaemonAction performs
      no further mutation: its final state is the one applyRule left. */
  lemma DaemonStopsWithApplyRule(s: MailState, searches: seq<string>, actions: seq<Action>,
                                 search: (string, map<ThreadId, Thread>) -> seq<ThreadId>,
                                 g: Guard, p: nat)
    requires Monotone(g.reading) && searches != [] && g.Passes(p)
    requires Run(s, ThreadsSteps(Counts(s), search(searches[0], s.threads), actions), g, p + 1).stopped
    ensures DaemonRun(s, searches, actions, search, g, p).state
         == Run(s, ThreadsSteps(Counts(s), search(searches[0], s.threads), actions), g, p + 1).state
  {
    var steps := ThreadsSteps(Counts(s), search(searches[0], s.threads), actions);
    var o := Run(s, steps, g, p + 1);
    assert DaemonRun(s, searches, actions, search, g, p) == DaemonRun(o.state, searches[1..], actions, search, g, o.pos);
    RunStopsOnFailedCheck(s, steps, g, p + 1);
    DaemonRunAfterExpiry(o.state, searches[1..], actions, search, g, o.pos);
  }

  /** Once doDaemonAction has met a failing check, start performs no further mutation. */
  lemma {:induction false} DaemonRunStopsOnFailedCheck(s: MailState, searches: seq<string>, actions: seq<Action>,
                                                       search: (string, map<ThreadId, Thread>) -> seq<ThreadId>,
                                                       g: Guard, p: nat)
    requires Monotone(g.reading)
    ensures var o := DaemonRun(s, searches, actions, search, g, p);
      o.pos >= p && (o.pos > 0 && !g.Passes(o.pos - 1) ==> RulesRunIdle(o, search, g))
    decreases |searches|
  {
    if searches != [] && g.Passes(p) {
      var steps := ThreadsSteps(Counts(s), search(searches[0], s.threads), actions);
      RunKeepsCounts(s, steps, g, p + 1);
      var o := Run(s, steps, g, p + 1);
      DaemonRunStopsOnFailedCheck(o.state, searches[1..], actions, search, g, o.pos);
    }
  }

  ghost predicate RulesRunIdle(o: Outcome, search: (string, map<ThreadId, Thread>) -> seq<ThreadId>, g: Guard)
    requires Monotone(g.reading) && o.pos > 0 && !g.Passes(o.pos - 1)
  {
    forall rules: seq<Rule> {:trigger RulesRun(o.state, rules, search, g, o.pos)} ::
      RulesRun(o.state, rules, search, g, o.pos).state == o.state
  }

  // ------------------------------------------------ what each action means

  function NameSet(names: seq<string>): set<string> {
    set n | n in names
  }

  /** The state with one existing thread replaced. */
  function Retouch(s: MailState, id: ThreadId, t: Thread): (r: MailState)
    requires id in s.threads
    ensures r.threads.Keys == s.threads.Keys && r.labels == s.labels && r.threads[id] == t
    ensures forall k :: k in s.threads && k != id ==> r.threads[k] == s.threads[k]
  {
    s.(threads := s.threads[id := t])
  }

  /** What one case of the switch does to one thread, stated on the thread's
      fields: APPLY_LABEL adds every named label to the thread and to the
      user's labels; REMOVE_LABEL takes off the named labels the user has; the
      markers and moves set one field; STAR/UNSTAR set every message's star. */
  function CaseMeaning(k: ActionKind, s: MailState, id: ThreadId, names: seq<string>): (r: MailState)
    requires id in s.threads
    ensures r.threads.Keys == s.threads.Keys && s.labels <= r.labels
    ensures forall j :: j in s.threads && j != id ==> r.threads[j] == s.threads[j]
    ensures |r.threads[id].starred| == |s.threads[id].starred|
  {
    var t := s.threads[id];
    match k
    case ApplyLabel =>
      Retouch(s, id, t.(labels := t.labels + NameSet(names))).(labels := s.labels + NameSet(names))
    case RemoveLabel => Retouch(s, id, t.(labels := t.labels - (NameSet(names) * s.labels)))
    case MarkAsImportant => Retouch(s, id, t.(important := true))
    case MarkAsUnimportant => Retouch(s, id, t.(important := false))
    case MarkAsRead => Retouch(s, id, t.(read := true))
    case MarkAsUnread => Retouch(s, id, t.(read := false))
    case MoveToArchive => Retouch(s, id, t.(location := Archive))
    case MoveToInbox => Retouch(s, id, t.(location := Inbox))
    case MoveToSpam => Retouch(s, id, t.(location := Spam))
    case MoveToTrash => Retouch(s, id, t.(location := Trash))
    case StarMessages => Retouch(s, id, t.(starred := seq(|t.starred|, _ => true)))
    case UnstarMessages => Retouch(s, id, t.(starred := seq(|t.starred|, _ => false)))
    case ClearLabel => s
  }

  /** What one action does: the case its type selects, and nothing for
      CLEAR_LABEL and unknown types. Other threads never change. */
  function ActionMeaning(s: MailState, id: ThreadId, a: Action): (r: MailState)
    requires id in s.threads
    ensures r.threads.Keys == s.threads.Keys && s.labels <= r.labels
    ensures forall k :: k in s.threads && k != id ==> r.threads[k] == s.threads[k]
    ensures |r.threads[id].starred| == |s.threads[id].starred|
  {
    match SwitchCase(a.actionType)
    case Some(k) => CaseMeaning(k, s, id, a.parameter1)
    case None => s
  }

  lemma ApplyAllCons(s: MailState, e: Effect, rest: seq<Step>)
    ensures ApplyAll(s, Effects([Check, Do(e)] + rest)) == ApplyAll(Apply(s, e), Effects(rest))
  {
    var l := [Check, Do(e)] + rest;
    assert l[0] == Check && l[1..] == [Do(e)] + rest;
    assert ([Do(e)] + rest)[0] == Do(e) && ([Do(e)] + rest)[1..] == rest;
    assert Effects(l) == [e] + Effects(rest);
    assert ([e] + Effects(rest))[1..] == Effects(rest);
  }

  /** The APPLY_LABEL loop adds every name to the thread and to the user's labels. */
  lemma {:induction false} AttachAll(s: MailState, id: ThreadId, names: seq<string>)
    requires id in s.threads
    ensures ApplyAll(s, Effects(LabelSteps(id, names, true))) ==
      var t := s.threads[id];
      MailState(s.threads[id := t.(labels := t.labels + NameSet(names))], s.labels + NameSet(names))
    decreases |names|
  {
    var t := s.threads[id];
    if names == [] {
      assert NameSet(names) == {};
      assert t.(labels := t.labels + NameSet(names)) == t;
      assert s.threads[id := t] == s.threads;
    } else {
      assert LabelSteps(id, names, true) == [Check, Do(AttachLabel(id, names[0]))] + LabelSteps(id, names[1..], true);
      ApplyAllCons(s, AttachLabel(id, names[0]), LabelSteps(id, names[1..], true));
      var s' := Apply(s, AttachLabel(id, names[0]));
      AttachAll(s', id, names[1..]);
      var t' := s'.threads[id];
      assert t'.labels == t.labels + {names[0]} && s'.labels == s.labels + {names[0]};
      assert NameSet(names) == {names[0]} + NameSet(names[1..]);
      assert t'.labels + NameSet(names[1..]) == t.labels + NameSet(names);
      assert s'.threads == s.threads[id := t'];
      assert t'.(labels := t'.labels + NameSet(names[1..])) == t.(labels := t.labels + NameSet(names));
    }
  }

  /** The REMOVE_LABEL loop takes off the named labels that the user has. */
  lemma {:induction false} DetachAll(s: MailState, id: ThreadId, names: seq<string>)
    requires id in s.threads
    ensures ApplyAll(s, Effects(LabelSteps(id, names, false))) ==
      var t := s.threads[id];
      s.(threads := s.threads[id := t.(labels := t.labels - (NameSet(names) * s.labels))])
    decreases |names|
  {
    var t := s.threads[id];
    if names == [] {
      assert t.labels - (NameSet(names) * s.labels) == t.labels;
      assert s.threads[id := t] == s.threads;
    } else {
      assert LabelSteps(id, names, false) == [Check, Do(DetachLabel(id, names[0]))] + LabelSteps(id, names[1..], false);
      ApplyAllCons(s, DetachLabel(id, names[0]), LabelSteps(id, names[1..], false));
      var s' := Apply(s, DetachLabel(id, names[0]));
      DetachAll(s', id, names[1..]);
      var t' := s'.threads[id];
      assert s'.labels == s.labels;
      assert t'.labels == t.labels - ({names[0]} * s.labels);
      assert NameSet(names) == {names[0]} + NameSet(names[1..]);
      assert t'.labels - (NameSet(names[1..]) * s.labels) == t.labels - (NameSet(names) * s.labels);
      assert s'.threads == s.threads[id := t'];
      assert t'.(labels := t'.labels - (NameSet(names[1..]) * s.labels))
          == t.(labels := t.labels - (NameSet(names) * s.labels));
    }
  }

  // ------------------------------------------------- the label cache as written

  /** The names an empty object literal inherits from Object.prototype in the
      V8 runtime: for these, `labels[labelName]` on the cache `{}` is truthy
      although nothing was ever stored. */
  const InheritedNames: set<string> :=
    {"constructor", "hasOwnProperty", "isPrototypeOf", "propertyIsEnumerable",
     "toLocaleString", "toString", "valueOf", "__proto__",
     "__defineGetter__", "__defineSetter__", "__lookupGetter__", "__lookupSetter__"}

  /** The host rejects a value that is not a label: the run ends in the state
      reached so far. */
  datatype LabelFailure = NotALabel(state: MailState, name: string)

  /** The untimed label loop of APPLY_LABEL (attach) or REMOVE_LABEL (detach)
      as written: an inherited name hits the cache, its inherited member goes
      to addLabel / removeLabel instead of a label, and the call throws. */
  function LabelLoopAsWritten(s: MailState, id: ThreadId, names: seq<string>, attach: bool): (r: Result<MailState, LabelFailure>)
    ensures r.Err? ==> r.error.name in names && r.error.name in InheritedNames
    decreases |names|
  {
    if names == [] then Ok(s)
    else if names[0] in InheritedNames then Err(NotALabel(s, names[0]))
    else LabelLoopAsWritten(Apply(s, LabelEffect(id, names[0], attach)), id, names[1..], attach)
  }

  /** Without inherited names the loop as written performs exactly the label
      steps of the model. */
  lemma {:induction false} LabelLoopAgrees(s: MailState, id: ThreadId, names: seq<string>, attach: bool)
    requires forall i :: 0 <= i < |names| ==> names[i] !in InheritedNames
    ensures LabelLoopAsWritten(s, id, names, attach) == Ok(ApplyAll(s, Effects(LabelSteps(id, names, attach))))
    decreases |names|
  {
    if names != [] {
      var e := LabelEffect(id, names[0], attach);
      assert LabelSteps(id, names, attach) == [Check, Do(e)] + LabelSteps(id, names[1..], attach);
      ApplyAllCons(s, e, LabelSteps(id, names[1..], attach));
      assert names[0] !in InheritedNames;
      LabelLoopAgrees(Apply(s, e), id, names[1..], attach);
    }
  }

  /** APPLY_LABEL with the name "constructor": as written the run fails
      without attaching anything, where the label steps attach the label.
      REMOVE_LABEL with "toString", a label the user does not have: as written
      the run fails, where the label steps skip the name and change nothing. */
  lemma InheritedLabelName(s: MailState, id: ThreadId)
    requires id in s.threads
    ensures LabelLoopAsWritten(s, id, ["constructor"], true) == Err(NotALabel(s, "constructor"))
    ensures var r := ApplyAll(s, Effects(LabelSteps(id, ["constructor"], true)));
      id in r.threads && "constructor" in r.threads[id].labels
    ensures LabelLoopAsWritten(s, id, ["toString"], false) == Err(NotALabel(s, "toString"))
    ensures "toString" !in s.labels ==> ApplyAll(s, Effects(LabelSteps(id, ["toString"], false))) == s
  {
    assert "constructor" in InheritedNames && "toString" in InheritedNames;
    AttachAll(s, id, ["constructor"]);
    assert "constructor" in NameSet(["constructor"]);
    DetachAll(s, id, ["toString"]);
    if "toString" !in s.labels {
      var t := s.threads[id];
      assert NameSet(["toString"]) * s.labels == {};
      assert t.(labels := t.labels - {}) == t;
      assert s.threads[id := t] == s.threads;
    }
  }

  /** The star loop from message m on sets the star of messages m.. and keeps the others. */
  lemma {:induction false} StarFrom(s: MailState, id: ThreadId, m: nat, star: bool)
    requires id in s.threads && m <= |s.threads[id].starred|
    ensures ApplyAll(s, Effects(StarSteps(id, m, |s.threads[id].starred|, star))) ==
      var t := s.threads[id];
      s.(threads := s.threads[id := t.(starred := t.starred[..m] + seq(|t.starred| - m, _ => star))])
    decreases |s.threads[id].starred| - m
  {
    var t := s.threads[id];
    var n := |t.starred|;
    if m == n {
      assert t.starred[..m] + seq(n - m, _ => star) == t.starred;
      assert s.threads[id := t] == s.threads;
    } else {
      ApplyAllCons(s, SetStar(id, m, star), StarSteps(id, m + 1, n, star));
      var s' := Apply(s, SetStar(id, m, star));
      StarFrom(s', id, m + 1, star);
      var u := t.starred[m := star];
      assert u[..m + 1] + seq(n - m - 1, _ => star) == t.starred[..m] + seq(n - m, _ => star);
    }
  }

  lemma StarAll(s: MailState, id: ThreadId, star: bool)
    requires id in s.threads
    ensures ApplyAll(s, Effects(StarSteps(id, 0, |s.threads[id].starred|, star))) ==
      var t := s.threads[id];
      s.(threads := s.threads[id := t.(starred := seq(|t.starred|, _ => star))])
  {
    StarFrom(s, id, 0, star);
    var t := s.threads[id];
    assert t.starred[..0] + seq(|t.starred|, _ => star) == seq(|t.starred|, _ => star);
  }

  lemma SingleEffect(s: MailState, e: Effect)
    ensures ApplyAll(s, Effects([Do(e)])) == Apply(s, e)
  {
    assert Effects([Do(e)]) == [e];
    assert [e][1..] == [];
  }

  /** Untimed, the steps of one case on an existing thread do exactly what the case means. */
  lemma CaseStepsMeaning(k: ActionKind, s: MailState, id: ThreadId, names: seq<string>)
    requires id in s.threads
    ensures ApplyAll(s, Effects(CaseSteps(k, Counts(s), id, names))) == CaseMeaning(k, s, id, names)
  {
    assert CountOf(Counts(s), id) == |s.threads[id].starred|;
    match k
    case ApplyLabel => AttachAll(s, id, names);
    case RemoveLabel => DetachAll(s, id, names);
    case StarMessages => StarAll(s, id, true);
    case UnstarMessages => StarAll(s, id, false);
    case MarkAsImportant => SingleEffect(s, SetImportant(id, true));
    case MarkAsUnimportant => SingleEffect(s, SetImportant(id, false));
    case MarkAsRead => SingleEffect(s, SetRead(id, true));
    case MarkAsUnread => SingleEffect(s, SetRead(id, false));
    case MoveToArchive => SingleEffect(s, MoveTo(id, Archive));
    case MoveToInbox => SingleEffect(s, MoveTo(id, Inbox));
    case MoveToSpam => SingleEffect(s, MoveTo(id, Spam));
    case MoveToTrash => SingleEffect(s, MoveTo(id, Trash));
    case ClearLabel =>
  }

  /** Untimed, the steps of one action on an existing thread do exactly what
      the action means. */
  lemma ActionStepsMeaning(s: MailState, id: ThreadId, a: Action)
    requires id in s.threads
    ensures ApplyAll(s, Effects(ActionSteps(Counts(s), id, a))) == ActionMeaning(s, id, a)
  {
    ActionStepsCase(Counts(s), id, a);
    if SwitchCase(a.actionType).Some? {
      CaseStepsMeaning(SwitchCase(a.actionType).value, s, id, a.parameter1);
    }
  }

  lemma ActionMeaningKeepsCounts(s: MailState, id: ThreadId, a: Action)
    requires id in s.threads
    ensures Counts(ActionMeaning(s, id, a)) == Counts(s)
  {
    var r := ActionMeaning(s, id, a);
    forall k | k in s.threads ensures |r.threads[k].starred| == |s.threads[k].starred| {
    }
  }

  /** Every action of a rule, in order, on one thread. */
  function ActionsMeaning(s: MailState, id: ThreadId, actions: seq<Action>): (r: MailState)
    requires id in s.threads
    ensures r.threads.Keys == s.threads.Keys
    decreases |actions|
  {
    if actions == [] then s else ActionsMeaning(ActionMeaning(s, id, actions[0]), id, actions[1..])
  }

  /** Every action of a rule on every thread found, thread by thread. */
  function ThreadsMeaning(s: MailState, ids: seq<ThreadId>, actions: seq<Action>): (r: MailState)
    requires forall k :: 0 <= k < |ids| ==> ids[k] in s.threads
    ensures r.threads.Keys == s.threads.Keys
    decreases |ids|
  {
    if ids == [] then s else ThreadsMeaning(ActionsMeaning(s, ids[0], actions), ids[1..], actions)
  }

  lemma ApplyAllThree(s: MailState, x: seq<Step>, y: seq<Step>)
    ensures ApplyAll(s, Effects([Check] + x + y)) == ApplyAll(ApplyAll(s, Effects(x)), Effects(y))
  {
    EffectsAppend([Check] + x, y);
    EffectsAppend([Check], x);
    assert Effects([Check]) == [];
    assert [] + Effects(x) == Effects(x);
    ApplyAllAppend(s, Effects(x), Effects(y));
  }

  lemma {:induction false} ActionsStepsMeaning(s: MailState, id: ThreadId, actions: seq<Action>)
    requires id in s.threads
    ensures Counts(ActionsMeaning(s, id, actions)) == Counts(s)
    ensures ApplyAll(s, Effects(ActionsSteps(Counts(s), id, actions))) == ActionsMeaning(s, id, actions)
    decreases |actions|
  {
    if actions != [] {
      var s1 := ActionMeaning(s, id, actions[0]);
      ApplyAllThree(s, ActionSteps(Counts(s), id, actions[0]), ActionsSteps(Counts(s), id, actions[1..]));
      ActionStepsMeaning(s, id, actions[0]);
      ActionMeaningKeepsCounts(s, id, actions[0]);
      ActionsStepsMeaning(s1, id, actions[1..]);
    }
  }

  /** Untimed, applyRule's steps perform every action on every thread found, in order. */
  lemma {:induction false} ThreadsStepsMeaning(s: MailState, ids: seq<ThreadId>, actions: seq<Action>)
    requires forall k :: 0 <= k < |ids| ==> ids[k] in s.threads
    ensures ApplyAll(s, Effects(ThreadsSteps(Counts(s), ids, actions))) == ThreadsMeaning(s, ids, actions)
    decreases |ids|
  {
    if ids != [] {
      var s1 := ActionsMeaning(s, ids[0], actions);
      ApplyAllThree(s, ActionsSteps(Counts(s), ids[0], actions), ThreadsSteps(Counts(s), ids[1..], actions));
      ActionsStepsMeaning(s, ids[0], actions);
      ThreadsStepsMeaning(s1, ids[1..], actions);
    }
  }

  /** With time to spare for every check, applyRule performs the whole rule and
      does not stop early. */
  lemma ApplyRuleWithTime(s: MailState, ids: seq<ThreadId>, actions: seq<Action>, g: Guard, p: nat)
    requires forall k :: 0 <= k < |ids| ==> ids[k] in s.threads
    requires forall j: nat :: p <= j < p + CheckCount(ThreadsSteps(Counts(s), ids, actions)) ==> g.Passes(j)
    ensures Run(s, ThreadsSteps(Counts(s), ids, actions), g, p)
         == Outcome(ThreadsMeaning(s, ids, actions), p + CheckCount(ThreadsSteps(Counts(s), ids, actions)), false)
  {
    RunUntimed(s, ThreadsSteps(Counts(s), ids, actions), g, p);
    ThreadsStepsMeaning(s, ids, actions);
  }
}
