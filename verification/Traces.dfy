/** Executions: the states a run of the machine passes through. */
module Traces {
  import opened Protocol
  import opened Frames

  /** `tr[i]` is the state before `es[i]`; any interleaving of any events is an execution. */
  ghost predicate Execution(tr: seq<State>, es: seq<Event>) {
    && |tr| == |es| + 1
    && forall i :: 0 <= i < |es| ==> tr[i + 1] == Next(tr[i], es[i])
  }

  /** Any database, nothing cached or queued, every consumer idle. */
  ghost predicate Initial(s: State) {
    s == Start(s.cfg, s.clock, s.db, |s.consumers|)
  }

  /** An execution from an initial state. */
  ghost predicate Behavior(tr: seq<State>, es: seq<Event>) {
    Execution(tr, es) && Initial(tr[0])
  }

  /** Every step of the execution meets a condition on the state it starts from and its event. */
  ghost predicate Always(tr: seq<State>, es: seq<Event>, good: (State, Event) -> bool)
    requires Execution(tr, es)
  {
    forall i :: 0 <= i < |es| ==> good(tr[i], es[i])
  }

  lemma BehaviorStep(tr: seq<State>, es: seq<Event>)
    requires Behavior(tr, es)
    ensures |tr| == |es| + 1
    ensures forall i :: 0 <= i < |es| ==> tr[i + 1] == Next(tr[i], es[i])
  {}

  /** The clock never goes back and the step counter counts the events. */
  lemma {:induction false} TimeAdvances(tr: seq<State>, es: seq<Event>, i: nat, j: nat)
    requires Execution(tr, es) && i <= j <= |es|
    ensures tr[i].clock <= tr[j].clock
    ensures tr[j].hist.step == tr[i].hist.step + (j - i)
    ensures tr[j].cfg == tr[i].cfg
    decreases j
  {
    hide Next;
    if i < j {
      TimeAdvances(tr, es, i, j - 1);
      NextKeepsTime(tr[j - 1], es[j - 1]);
      assert tr[j - 1 + 1] == Next(tr[j - 1], es[j - 1]);
    }
  }

  lemma NextKeepsTime(s: State, e: Event)
    ensures s.clock <= Next(s, e).clock
    ensures Next(s, e).hist.step == s.hist.step + 1
    ensures Next(s, e).cfg == s.cfg
  {
    hide Step;
    StepKeepsTime(s, e);
  }

  lemma StepKeepsTime(s: State, e: Event)
    ensures s.clock <= Step(s, e).clock
    ensures Step(s, e).hist.step == s.hist.step
    ensures Step(s, e).cfg == s.cfg
  {
    hide StepHandler, StepConsumer, StepSync, StepReader;
    match e
    case OnHandler(h, he) => if h < |s.handlers| { HandlerFrame(s, h, he); }
    case OnConsumer(c, ce) => if c < |s.consumers| { ConsumerFrame(s, c, ce); }
    case OnSync(v, ve) => if v < |s.syncs| { SyncFrame(s, v, ve); }
    case OnReader(r, re) => if r < |s.readers| { ReaderFrame(s, r, re); }
    case _ =>
  }

  // ---- Runs of known events ------------------------------------------------

  lemma RunSnoc(s: State, es: seq<Event>, e: Event)
    ensures Run(s, es + [e]) == Next(Run(s, es), e)
  {}

  lemma {:induction false} RunConcat(s: State, a: seq<Event>, b: seq<Event>)
    ensures Run(s, a + b) == Run(Run(s, a), b)
    decreases |b|
  {
    hide Next;
    if b == [] {
      assert a + b == a;
    } else {
      var b', e := b[..|b| - 1], b[|b| - 1];
      RunConcat(s, a, b');
      assert a + b == (a + b') + [e];
      RunSnoc(s, a + b', e);
    }
  }
}
