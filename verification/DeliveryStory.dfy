/** What a record says about its own past, over every run of the delivery protocol. */
module DeliveryStory {
  import opened Common
  import opened Outbox
  import opened DeliveryProtocol
  import opened DeliverySafety

  /** Claims since the last administrative requeue, the last error not yet made good, and the last write. */
  datatype Story = Story(claims: nat, error: Option<string>, written: real)

  /** The first 500 characters. */
  function Cut(error: string): string {
    if |error| <= 500 then error else error[..500]
  }

  function Told(story: Story, ev: RowEvent): Story {
    match ev
    case ClaimedAt(now) => story.(claims := story.claims + 1, written := now)
    case RetiredAt(now) => story.(written := now)
    case ResetAt(now) => Story(0, None, now)
    case Marking(Deliver(now)) => story.(error := None, written := now)
    case Marking(Return(now)) => story.(written := now)
    case Marking(Fail(error, now, _)) => story.(error := Some(Cut(error)), written := now)
    case Marking(Bury(error, now)) => story.(error := Some(Cut(error)), written := now)
    case _ => story
  }

  predicate Tells(r: Record, story: Story) {
    r.attempts == story.claims && r.lastError == story.error && r.updatedAt == story.written
  }

  /** The story of record k after n actions, told from its creation by what was done to it. */
  ghost function StoryOf(p: RetryPolicy, states: seq<System>, actions: seq<Action>, n: nat, k: nat): Story
    requires IsRun(p, states, actions) && IsInitial(states[0]) && n <= |actions| && k < |states[n].rows|
  {
    RunTakes(p, states, actions, n - 1);
    var s, a := states[n - 1], actions[n - 1];
    var before :=
      if k < |s.rows| then StoryOf(p, states, actions, n - 1, k) else Story(0, None, Grown(s, a)[k].createdAt);
    Told(before, EventAt(p, s, a, Grown(s, a), k))
  }

  lemma TellsNext(p: RetryPolicy, r: Record, story: Story, ev: RowEvent)
    requires Tells(r, story) && (forall now :: ev == RetiredAt(now) ==> IsExhausted(p, r, now))
    ensures Tells(Touched(p, r, ev), Told(story, ev))
  {
  }

  lemma FreshTells(p: RetryPolicy, s: System, a: Action, k: nat)
    requires |s.rows| <= k < |Grown(s, a)|
    ensures Tells(Grown(s, a)[k], Story(0, None, Grown(s, a)[k].createdAt))
  {
  }

  lemma OnlyExhaustedRetire(p: RetryPolicy, s: System, a: Action, k: nat, now: real)
    requires Enabled(p, s, a) && k < |Grown(s, a)| && EventAt(p, s, a, Grown(s, a), k) == RetiredAt(now)
    ensures IsExhausted(p, Grown(s, a)[k], now)
  {
  }

  lemma OldTells(p: RetryPolicy, s: System, a: Action, t: System, k: nat, before: Story)
    requires Takes(p, s, a, t) && k < |t.rows| && k < |s.rows| && Tells(s.rows[k], before)
    ensures k < |Grown(s, a)| && Tells(t.rows[k], Told(before, EventAt(p, s, a, Grown(s, a), k)))
  {
    NextRow(p, s, a, k);
    StepTells(p, s, a, t, k, before);
  }

  lemma NewTells(p: RetryPolicy, s: System, a: Action, t: System, k: nat)
    requires Takes(p, s, a, t) && |s.rows| <= k < |t.rows|
    ensures k < |Grown(s, a)|
    ensures Tells(t.rows[k],
                  Told(Story(0, None, Grown(s, a)[k].createdAt), EventAt(p, s, a, Grown(s, a), k)))
  {
    FreshTells(p, s, a, k);
    StepTells(p, s, a, t, k, Story(0, None, Grown(s, a)[k].createdAt));
  }

  lemma StepTells(p: RetryPolicy, s: System, a: Action, t: System, k: nat, before: Story)
    requires Takes(p, s, a, t) && k < |t.rows|
    requires k < |Grown(s, a)| && Tells(Grown(s, a)[k], before)
    ensures Tells(t.rows[k], Told(before, EventAt(p, s, a, Grown(s, a), k)))
  {
    NextRow(p, s, a, k);
    var ev := EventAt(p, s, a, Grown(s, a), k);
    if ev.RetiredAt? {
      OnlyExhaustedRetire(p, s, a, k, ev.now);
    }
    TellsNext(p, Grown(s, a)[k], before, ev);
  }

  /**
   * In every run: attempts are exactly the claims since the record was created or last requeued by
   * an administrator, the error is that of the last failure since it was last delivered or requeued
   * so, cut to 500 characters, and the time stamp is the clock reading of the last write.
   */
  lemma {:induction false} RecordTellsItsStory(p: RetryPolicy, states: seq<System>, actions: seq<Action>,
                                               n: nat, k: nat)
    requires IsRun(p, states, actions) && IsInitial(states[0]) && n <= |actions| && k < |states[n].rows|
    ensures Tells(states[n].rows[k], StoryOf(p, states, actions, n, k))
  {
    RunTakes(p, states, actions, n - 1);
    var s, a := states[n - 1], actions[n - 1];
    if k < |s.rows| {
      RecordTellsItsStory(p, states, actions, n - 1, k);
      OldTells(p, s, a, states[n], k, StoryOf(p, states, actions, n - 1, k));
    } else {
      NewTells(p, s, a, states[n], k);
    }
  }
}
