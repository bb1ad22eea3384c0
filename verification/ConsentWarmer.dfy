/** The consent cache of the manual HTTP example: background lookups under a lock and a semaphore. */
module ConsentWarmer {
  import opened Basics

  type Subject = nat
  type ThreadId = nat

  const MAX_CONCURRENT_WARMS: nat := 8

  datatype Verdict = Approved | Declined

  datatype Entry = Entry(verdict: Verdict, revision: int, expires: int)

  datatype Reported = SaysUnknown | SaysApproved | SaysDeclined | SaysOther

  /** A lookup's answer; a revision that is not a whole number counts as missing. */
  datatype Response = Failed | Answered(state: Reported, revision: Option<int>)

  /** What the lock protects. */
  datatype Shared = Shared(cache: map<Subject, Entry>, lookups: set<Subject>, slots: nat)

  // ------------------------------------------------------------------ the locked sections

  predicate Live(s: Shared, subject: Subject, now: int) {
    subject in s.cache && s.cache[subject].expires > now
  }

  /** Reading the cache drops an entry that has expired. */
  function ReadCache(s: Shared, subject: Subject, now: int): (Shared, Option<Entry>) {
    if Live(s, subject, now) then (s, Some(s.cache[subject]))
    else (s.(cache := s.cache - {subject}), None)
  }

  /** A lookup is claimed when none is in flight for the subject and a slot is free. */
  predicate CanClaim(s: Shared, subject: Subject) {
    subject !in s.lookups && s.slots > 0
  }

  function Claim(s: Shared, subject: Subject): Shared
    requires CanClaim(s, subject)
  {
    s.(lookups := s.lookups + {subject}, slots := s.slots - 1)
  }

  function Release(s: Shared, subject: Subject): Shared {
    s.(lookups := s.lookups - {subject}, slots := s.slots + 1)
  }

  /** The verdict and revision worth caching, if the answer is consistent. */
  function Accepted(response: Response): Option<(Verdict, int)> {
    match response
    case Failed => None
    case Answered(state, revision) =>
      if state == SaysOther || revision.None? || revision.value < 0 then None
      else if (state == SaysUnknown && revision.value != 0) || (state != SaysUnknown && revision.value == 0) then None
      else if state == SaysUnknown then None
      else Some((if state == SaysApproved then Approved else Declined, revision.value))
  }

  function StoreAnswer(s: Shared, subject: Subject, response: Response, expires: int): Shared {
    match Accepted(response)
    case None => s
    case Some(answer) => s.(cache := s.cache[subject := Entry(answer.0, answer.1, expires)])
  }

  /** The shared variables, changed only while the lock is held. */
  class ConsentCache {
    var cache: map<Subject, Entry>
    var lookups: set<Subject>
    var slots: nat

    function Snapshot(): Shared
      reads this
    {
      Shared(cache, lookups, slots)
    }

    constructor ()
      ensures Snapshot() == Shared(map[], {}, MAX_CONCURRENT_WARMS)
    {
      cache, lookups, slots := map[], {}, MAX_CONCURRENT_WARMS;
    }

    method Cached(subject: Subject, now: int) returns (entry: Option<Entry>)
      modifies this`cache
      ensures (Snapshot(), entry) == ReadCache(old(Snapshot()), subject, now)
    {
      if subject !in cache {
        assert cache - {subject} == cache;
        return None;
      }
      if cache[subject].expires > now {
        return Some(cache[subject]);
      }
      cache := cache - {subject};
      return None;
    }

    method TryClaim(subject: Subject) returns (claimed: bool)
      modifies this`lookups, this`slots
      ensures claimed == CanClaim(old(Snapshot()), subject)
      ensures Snapshot() == if claimed then Claim(old(Snapshot()), subject) else old(Snapshot())
    {
      if subject in lookups {
        return false;
      }
      if slots == 0 {
        return false;
      }
      slots := slots - 1;
      lookups := lookups + {subject};
      return true;
    }

    method StoreResponse(subject: Subject, response: Response, expires: int)
      modifies this`cache
      ensures Snapshot() == StoreAnswer(old(Snapshot()), subject, response, expires)
    {
      match response
      case Failed =>
      case Answered(state, revision) =>
        if state == SaysOther || revision.None? || revision.value < 0 {
          return;
        }
        if (state == SaysUnknown && revision.value != 0) || (state != SaysUnknown && revision.value == 0) {
          return;
        }
        if state != SaysUnknown {
          cache := cache[subject :=
              Entry(if state == SaysApproved then Approved else Declined, revision.value, expires)];
        }
    }
  }

  // ------------------------------------------------------------------ the threads

  /** Where a thread stands between two locked sections. */
  datatype Pc =
    | Warming(subject: Subject)
    | Claiming(subject: Subject)
    | Starting(subject: Subject)
    | Looking(subject: Subject)
    | Asking(subject: Subject)
    | Finishing(subject: Subject)
    | Drafting(subject: Subject, read: Option<Entry>, readAt: int)
    | Drafted(subject: Subject, read: Option<Entry>, readAt: int, revision: int)
    | Done

  datatype State = State(shared: Shared, threads: map<ThreadId, Pc>, clock: int)

  datatype Step =
    | Tick(seconds: nat)
    | Warm(t: ThreadId, subject: Subject)
    | CheckFirst(t: ThreadId)
    | TakeSlot(t: ThreadId)
    | StartThread(t: ThreadId, worker: ThreadId)
    | FailToStart(t: ThreadId)
    | CheckAgain(t: ThreadId)
    | Receive(t: ThreadId, response: Response, ttl: int)
    | Finish(t: ThreadId)
    | Prepare(t: ThreadId, subject: Subject)
    | ReadRevision(t: ThreadId)

  predicate At(s: State, t: ThreadId) {
    t in s.threads
  }

  predicate Enabled(s: State, step: Step) {
    match step
    case Tick(_) => true
    case Warm(t, _) => !At(s, t)
    case CheckFirst(t) => At(s, t) && s.threads[t].Warming?
    case TakeSlot(t) => At(s, t) && s.threads[t].Claiming?
    case StartThread(t, worker) => At(s, t) && s.threads[t].Starting? && !At(s, worker)
    case FailToStart(t) => At(s, t) && s.threads[t].Starting?
    case CheckAgain(t) => At(s, t) && s.threads[t].Looking?
    case Receive(t, _, _) => At(s, t) && s.threads[t].Asking?
    case Finish(t) => At(s, t) && s.threads[t].Finishing?
    case Prepare(t, _) => !At(s, t)
    case ReadRevision(t) => At(s, t) && s.threads[t].Drafting?
  }

  function Moved(s: State, shared: Shared, t: ThreadId, pc: Pc): State {
    State(shared, s.threads[t := pc], s.clock)
  }

  function Apply(s: State, step: Step): State
    requires Enabled(s, step)
  {
    match step
    case Tick(seconds) => s.(clock := s.clock + seconds)
    case Warm(t, subject) => Moved(s, s.shared, t, Warming(subject))
    case CheckFirst(t) =>
      var subject := s.threads[t].subject;
      var (shared, entry) := ReadCache(s.shared, subject, s.clock);
      Moved(s, shared, t, if entry.Some? then Done else Claiming(subject))
    case TakeSlot(t) =>
      var subject := s.threads[t].subject;
      if CanClaim(s.shared, subject) then Moved(s, Claim(s.shared, subject), t, Starting(subject))
      else Moved(s, s.shared, t, Done)
    case StartThread(t, worker) =>
      var subject := s.threads[t].subject;
      Moved(s.(threads := s.threads[t := Done]), s.shared, worker, Looking(subject))
    case FailToStart(t) => Moved(s, Release(s.shared, s.threads[t].subject), t, Done)
    case CheckAgain(t) =>
      var subject := s.threads[t].subject;
      var (shared, entry) := ReadCache(s.shared, subject, s.clock);
      Moved(s, shared, t, if entry.Some? then Finishing(subject) else Asking(subject))
    case Receive(t, response, ttl) =>
      var subject := s.threads[t].subject;
      Moved(s, StoreAnswer(s.shared, subject, response, s.clock + ttl), t, Finishing(subject))
    case Finish(t) => Moved(s, Release(s.shared, s.threads[t].subject), t, Done)
    case Prepare(t, subject) =>
      var (shared, entry) := ReadCache(s.shared, subject, s.clock);
      Moved(s, shared, t, Drafting(subject, entry, s.clock))
    case ReadRevision(t) =>
      var pc := s.threads[t];
      var revision := if Live(s.shared, pc.subject, s.clock) then s.shared.cache[pc.subject].revision else 0;
      Moved(s, s.shared, t, Drafted(pc.subject, pc.read, pc.readAt, revision))
  }

  predicate Behaviour(states: seq<State>, steps: seq<Step>) {
    && |states| == |steps| + 1
    && (forall i | 0 <= i < |steps| :: Enabled(states[i], steps[i]) && states[i + 1] == Apply(states[i], steps[i]))
  }

  function Start(clock: int): State {
    State(Shared(map[], {}, MAX_CONCURRENT_WARMS), map[], clock)
  }

  // ------------------------------------------------------------------ invariants

  /** A thread between claiming a lookup and giving it back. */
  predicate Holds(pc: Pc) {
    pc.Starting? || pc.Looking? || pc.Asking? || pc.Finishing?
  }

  ghost predicate Holder(s: State, t: ThreadId, subject: Subject) {
    t in s.threads && Holds(s.threads[t]) && s.threads[t].subject == subject
  }

  /** Free slots and subjects in flight always make eight. */
  predicate SlotsBalance(s: State) {
    s.shared.slots + |s.shared.lookups| == MAX_CONCURRENT_WARMS
  }

  /** The subjects in flight are those held, each by one thread. */
  ghost predicate LookupsHeld(s: State) {
    && (forall t | t in s.threads && Holds(s.threads[t]) :: s.threads[t].subject in s.shared.lookups)
    && (forall subject | subject in s.shared.lookups :: exists t :: Holder(s, t, subject))
    && (forall t, u | t in s.threads && u in s.threads && Holds(s.threads[t]) && Holds(s.threads[u])
                      && s.threads[t].subject == s.threads[u].subject :: t == u)
  }

  ghost predicate CacheSound(s: State) {
    forall subject | subject in s.shared.cache :: s.shared.cache[subject].revision >= 1
  }

  predicate ReadSound(pc: Pc) {
    pc.Drafting? || pc.Drafted? ==> pc.read.Some? ==> pc.read.value.revision >= 1 && pc.read.value.expires > pc.readAt
  }

  ghost predicate ReadsSound(s: State) {
    forall t | t in s.threads :: ReadSound(s.threads[t])
  }

  ghost predicate Inv(s: State) {
    SlotsBalance(s) && LookupsHeld(s) && CacheSound(s) && ReadsSound(s)
  }

  /** A step that touches no holder and no slot. */
  lemma UntouchedHolders(s: State, t: State)
    requires SlotsBalance(s) && LookupsHeld(s)
    requires t.shared.slots == s.shared.slots && t.shared.lookups == s.shared.lookups
    requires forall k | k in s.threads && Holds(s.threads[k]) ::
               k in t.threads && Holds(t.threads[k]) && t.threads[k].subject == s.threads[k].subject
    requires forall k | k in t.threads && Holds(t.threads[k]) :: k in s.threads && Holds(s.threads[k])
    ensures SlotsBalance(t) && LookupsHeld(t)
  {
    forall subject | subject in t.shared.lookups ensures exists k :: Holder(t, k, subject) {
      var k :| Holder(s, k, subject);
      assert Holder(t, k, subject);
    }
  }

  lemma ClaimKeepsHolders(s: State, t: ThreadId, subject: Subject)
    requires SlotsBalance(s) && LookupsHeld(s) && CanClaim(s.shared, subject)
    requires t in s.threads && s.threads[t] == Claiming(subject)
    ensures var u := Moved(s, Claim(s.shared, subject), t, Starting(subject)); SlotsBalance(u) && LookupsHeld(u)
  {
    var u := Moved(s, Claim(s.shared, subject), t, Starting(subject));
    forall x | x in u.shared.lookups ensures exists k :: Holder(u, k, x) {
      if x == subject {
        assert Holder(u, t, x);
      } else {
        var k :| Holder(s, k, x);
        assert Holder(u, k, x);
      }
    }
  }

  lemma ReleaseKeepsHolders(s: State, t: ThreadId)
    requires SlotsBalance(s) && LookupsHeld(s) && t in s.threads && Holds(s.threads[t])
    ensures var u := Moved(s, Release(s.shared, s.threads[t].subject), t, Done); SlotsBalance(u) && LookupsHeld(u)
  {
    var subject := s.threads[t].subject;
    var u := Moved(s, Release(s.shared, subject), t, Done);
    assert |s.shared.lookups - {subject}| == |s.shared.lookups| - 1;
    forall x | x in u.shared.lookups ensures exists k :: Holder(u, k, x) {
      var k :| Holder(s, k, x);
      assert Holder(u, k, x);
    }
  }

  lemma StartKeepsHolders(s: State, t: ThreadId, worker: ThreadId)
    requires SlotsBalance(s) && LookupsHeld(s) && Enabled(s, StartThread(t, worker))
    ensures var u := Apply(s, StartThread(t, worker)); SlotsBalance(u) && LookupsHeld(u)
  {
    var subject := s.threads[t].subject;
    var u := Apply(s, StartThread(t, worker));
    forall x | x in u.shared.lookups ensures exists k :: Holder(u, k, x) {
      var k :| Holder(s, k, x);
      assert Holder(u, if k == t then worker else k, x);
    }
  }

  lemma WorkerKeepsHolders(s: State, step: Step)
    requires SlotsBalance(s) && LookupsHeld(s) && Enabled(s, step)
    requires step.CheckAgain? || step.Receive?
    ensures SlotsBalance(Apply(s, step)) && LookupsHeld(Apply(s, step))
  {
    UntouchedHolders(s, Apply(s, step));
  }

  lemma BystanderKeepsHolders(s: State, step: Step)
    requires SlotsBalance(s) && LookupsHeld(s) && Enabled(s, step)
    requires step.Tick? || step.Warm? || step.CheckFirst? || step.Prepare? || step.ReadRevision?
    ensures SlotsBalance(Apply(s, step)) && LookupsHeld(Apply(s, step))
  {
    UntouchedHolders(s, Apply(s, step));
  }

  lemma TakeSlotKeepsHolders(s: State, t: ThreadId)
    requires SlotsBalance(s) && LookupsHeld(s) && Enabled(s, TakeSlot(t))
    ensures SlotsBalance(Apply(s, TakeSlot(t))) && LookupsHeld(Apply(s, TakeSlot(t)))
  {
    if CanClaim(s.shared, s.threads[t].subject) {
      ClaimKeepsHolders(s, t, s.threads[t].subject);
    } else {
      UntouchedHolders(s, Apply(s, TakeSlot(t)));
    }
  }

  lemma StepKeepsHolders(s: State, step: Step)
    requires SlotsBalance(s) && LookupsHeld(s) && Enabled(s, step)
    ensures SlotsBalance(Apply(s, step)) && LookupsHeld(Apply(s, step))
  {
    if step.TakeSlot? {
      TakeSlotKeepsHolders(s, step.t);
    } else if step.StartThread? {
      StartKeepsHolders(s, step.t, step.worker);
    } else if step.FailToStart? || step.Finish? {
      ReleaseKeepsHolders(s, step.t);
    } else if step.CheckAgain? || step.Receive? {
      WorkerKeepsHolders(s, step);
    } else {
      BystanderKeepsHolders(s, step);
    }
  }

  /** Only an approved or declined answer with a positive revision is worth caching, and it is cached as it is. */
  lemma AcceptedHasRevision(response: Response)
    ensures Accepted(response).Some? ==> Accepted(response).value.1 >= 1
    ensures Accepted(response).Some? ==>
              response == (if Accepted(response).value.0 == Approved
                           then Answered(SaysApproved, Some(Accepted(response).value.1))
                           else Answered(SaysDeclined, Some(Accepted(response).value.1)))
    ensures Accepted(response).Some? <==>
              response.Answered? && (response.state == SaysApproved || response.state == SaysDeclined)
              && response.revision.Some? && response.revision.value >= 1
  {}

  lemma StepKeepsReads(s: State, step: Step)
    requires CacheSound(s) && ReadsSound(s) && Enabled(s, step)
    ensures CacheSound(Apply(s, step)) && ReadsSound(Apply(s, step))
  {
    if step.Receive? {
      AcceptedHasRevision(step.response);
    }
  }

  lemma {:induction false} BehaviourKeepsInv(states: seq<State>, steps: seq<Step>, i: nat)
    requires Behaviour(states, steps) && Inv(states[0]) && i < |states|
    ensures Inv(states[i])
  {
    if i > 0 {
      BehaviourKeepsInv(states, steps, i - 1);
      StepKeepsHolders(states[i - 1], steps[i - 1]);
      StepKeepsReads(states[i - 1], steps[i - 1]);
    }
  }

  /** The first state of every run satisfies the invariant. */
  lemma StartIsSound(clock: int)
    ensures Inv(Start(clock))
  {}

  // ------------------------------------------------------------------ what follows

  /** Whenever the lock is free: free slots and subjects in flight make eight, whatever happened. */
  lemma SlotsAlwaysBalance(states: seq<State>, steps: seq<Step>, clock: int, i: nat)
    requires Behaviour(states, steps) && states[0] == Start(clock) && i < |states|
    ensures states[i].shared.slots + |states[i].shared.lookups| == 8
    ensures states[i].shared.slots <= 8
  {
    StartIsSound(clock);
    BehaviourKeepsInv(states, steps, i);
  }

  /** No subject ever has two lookups in flight. */
  lemma OneLookupPerSubject(states: seq<State>, steps: seq<Step>, clock: int, i: nat, t: ThreadId, u: ThreadId)
    requires Behaviour(states, steps) && states[0] == Start(clock) && i < |states|
    requires t in states[i].threads && u in states[i].threads
    requires Holds(states[i].threads[t]) && Holds(states[i].threads[u])
    requires states[i].threads[t].subject == states[i].threads[u].subject
    ensures t == u
  {
    StartIsSound(clock);
    BehaviourKeepsInv(states, steps, i);
  }

  /** A lookup of a subject starts exactly when no thread holds one and fewer than eight are in flight. */
  lemma LookupStartsIff(states: seq<State>, steps: seq<Step>, clock: int, i: nat, t: ThreadId)
    requires Behaviour(states, steps) && states[0] == Start(clock) && i < |steps| && steps[i] == TakeSlot(t)
    ensures At(states[i], t) && states[i].threads[t].Claiming? && t in states[i + 1].threads
    ensures var subject := states[i].threads[t].subject;
            states[i + 1].threads[t]
            == (if (forall u :: !Holder(states[i], u, subject)) && |states[i].shared.lookups| < 8
                then Starting(subject) else Done)
  {
    StartIsSound(clock);
    BehaviourKeepsInv(states, steps, i);
    assert Enabled(states[i], steps[i]) && states[i + 1] == Apply(states[i], steps[i]);
    var subject := states[i].threads[t].subject;
    assert subject in states[i].shared.lookups <==> exists u :: Holder(states[i], u, subject);
  }

  /** A thread with an unexpired entry before it goes no further, at either check. */
  lemma LookupsAreForMissing(s: State, step: Step)
    requires Enabled(s, step) && (step.CheckFirst? || step.CheckAgain?)
    ensures var u, subject := Apply(s, step), s.threads[step.t].subject;
            var cached := subject in s.shared.cache && s.clock < s.shared.cache[subject].expires;
            && step.t in u.threads
            && u.threads[step.t] == (if step.CheckFirst? then (if cached then Done else Claiming(subject))
                                     else if cached then Finishing(subject) else Asking(subject))
  {}

  /** Once no thread holds a lookup, every slot is back, also after a thread that failed to start. */
  lemma EverySlotComesBack(states: seq<State>, steps: seq<Step>, clock: int, i: nat)
    requires Behaviour(states, steps) && states[0] == Start(clock) && i < |states|
    requires forall t | t in states[i].threads :: !Holds(states[i].threads[t])
    ensures states[i].shared.slots == 8 && states[i].shared.lookups == {}
  {
    StartIsSound(clock);
    BehaviourKeepsInv(states, steps, i);
    forall subject ensures subject !in states[i].shared.lookups {
      assert subject in states[i].shared.lookups ==> exists t :: Holder(states[i], t, subject);
    }
  }

  /** How many locked sections a holder has before it. */
  function StepsLeft(pc: Pc): nat {
    match pc
    case Starting(_) => 4
    case Looking(_) => 3
    case Asking(_) => 2
    case Finishing(_) => 1
    case _ => 0
  }

  /** Whose turn a step is. */
  function Actor(step: Step): Option<ThreadId> {
    match step
    case Tick(_) => None
    case Warm(t, _) => Some(t)
    case CheckFirst(t) => Some(t)
    case TakeSlot(t) => Some(t)
    case StartThread(t, _) => Some(t)
    case FailToStart(t) => Some(t)
    case CheckAgain(t) => Some(t)
    case Receive(t, _, _) => Some(t)
    case Finish(t) => Some(t)
    case Prepare(t, _) => Some(t)
    case ReadRevision(t) => Some(t)
  }

  /** The holder's part of a step: it gets nearer to giving the slot back, and never gives it back twice. */
  lemma HoldersMakeProgress(s: State, step: Step, t: ThreadId)
    requires Inv(s) && Enabled(s, step) && t in s.threads && Holds(s.threads[t]) && Actor(step) == Some(t)
    ensures var u := Apply(s, step);
            && StepsLeft(u.threads[t]) < StepsLeft(s.threads[t])
            && (if step.StartThread? then StepsLeft(u.threads[step.worker]) < StepsLeft(s.threads[t])
               && u.shared == s.shared
                else if Holds(u.threads[t]) then u.shared.slots == s.shared.slots
                else u.shared.slots == s.shared.slots + 1 && s.threads[t].subject !in u.shared.lookups)
  {}

  datatype Mode = NeverAsk | AskAlways | AskOnce

  datatype Consent = Unknown | Known(verdict: Verdict)

  datatype Envelope = NoEnvelope | ConsentRequired | FeedbackReady

  /** The consent state a mode works with, given what the cache said. */
  function ConsentFor(mode: Mode, read: Option<Entry>): Consent {
    match mode
    case NeverAsk => Known(Approved)
    case AskAlways => Unknown
    case AskOnce => if read.Some? then Known(read.value.verdict) else Unknown
  }

  function EnvelopeFor(mode: Mode, consent: Consent): Envelope {
    if mode == AskOnce && consent == Known(Declined) then NoEnvelope
    else if (mode == AskOnce && consent == Unknown) || mode == AskAlways then ConsentRequired
    else FeedbackReady
  }

  /** The envelope of an interaction prepared in ask-once mode. */
  function EnvelopeOf(pc: Pc): Envelope
    requires pc.Drafted?
  {
    EnvelopeFor(AskOnce, ConsentFor(AskOnce, pc.read))
  }

  /**
   * In ask-once mode a `feedback_ready` envelope means that an unexpired approved entry of a
   * real revision was read.
   */
  lemma ReadyMeansApproved(states: seq<State>, steps: seq<Step>, clock: int, i: nat, t: ThreadId)
    requires Behaviour(states, steps) && states[0] == Start(clock) && i < |states|
    requires t in states[i].threads && states[i].threads[t].Drafted?
             && EnvelopeOf(states[i].threads[t]) == FeedbackReady
    ensures var pc := states[i].threads[t];
            && pc.read.Some? && pc.read.value.verdict == Approved
            && pc.read.value.revision >= 1
            && pc.read.value.expires > pc.readAt
  {
    StartIsSound(clock);
    BehaviourKeepsInv(states, steps, i);
    assert ReadSound(states[i].threads[t]);
  }

  // ------------------------------------------------------------------ the second read

  /** While a lookup asks, nothing is cached for its subject: it never overwrites an entry. */
  ghost predicate AskedIsMissing(s: State) {
    forall t | t in s.threads && s.threads[t].Asking? :: s.threads[t].subject !in s.shared.cache
  }

  /** An entry that was read stays as it was until it expires. */
  predicate ReadStands(s: State, pc: Pc) {
    pc.Drafting? && pc.read.Some? && pc.read.value.expires > s.clock ==>
      pc.subject in s.shared.cache && s.shared.cache[pc.subject] == pc.read.value
  }

  ghost predicate ReadsStand(s: State) {
    forall t | t in s.threads :: ReadStands(s, s.threads[t])
  }

  lemma StepKeepsAsked(s: State, step: Step)
    requires LookupsHeld(s) && AskedIsMissing(s) && Enabled(s, step)
    ensures AskedIsMissing(Apply(s, step))
  {}

  lemma ReceiveKeepsReads(s: State, step: Step)
    requires AskedIsMissing(s) && ReadsStand(s) && Enabled(s, step) && step.Receive?
    ensures ReadsStand(Apply(s, step))
  {
    var u := Apply(s, step);
    forall k | k in u.threads ensures ReadStands(u, u.threads[k]) {
      assert k in s.threads ==> ReadStands(s, s.threads[k]);
    }
  }

  lemma StepKeepsStanding(s: State, step: Step)
    requires AskedIsMissing(s) && ReadsStand(s) && Enabled(s, step)
    ensures ReadsStand(Apply(s, step))
  {
    if step.Receive? {
      ReceiveKeepsReads(s, step);
    } else {
      var u := Apply(s, step);
      forall k | k in u.threads ensures ReadStands(u, u.threads[k]) {
        assert k in s.threads ==> ReadStands(s, s.threads[k]);
      }
    }
  }

  lemma {:induction false} ReadsStandAlways(states: seq<State>, steps: seq<Step>, clock: int, i: nat)
    requires Behaviour(states, steps) && states[0] == Start(clock) && i < |states|
    ensures AskedIsMissing(states[i]) && ReadsStand(states[i])
  {
    if i > 0 {
      ReadsStandAlways(states, steps, clock, i - 1);
      StartIsSound(clock);
      BehaviourKeepsInv(states, steps, i - 1);
      StepKeepsAsked(states[i - 1], steps[i - 1]);
      StepKeepsStanding(states[i - 1], steps[i - 1]);
    }
  }

  /**
   * An envelope's claims carry revision zero exactly when no entry was live at the second read,
   * and the very revision that was approved whenever the entry read first had not expired by
   * then: no lookup replaces a live entry.
   */
  lemma RevisionIsMissedIff(states: seq<State>, steps: seq<Step>, clock: int, i: nat, t: ThreadId)
    requires Behaviour(states, steps) && states[0] == Start(clock) && i < |steps| && steps[i] == ReadRevision(t)
    ensures At(states[i], t) && states[i].threads[t].Drafting? && t in states[i + 1].threads
            && states[i + 1].threads[t].Drafted?
    ensures var pc := states[i + 1].threads[t];
            && (pc.revision == 0 <==> !Live(states[i].shared, pc.subject, states[i].clock))
            && (pc.read.Some? && pc.read.value.expires > states[i].clock ==> pc.revision == pc.read.value.revision >= 1)
  {
    StartIsSound(clock);
    BehaviourKeepsInv(states, steps, i);
    ReadsStandAlways(states, steps, clock, i);
    assert Enabled(states[i], steps[i]) && states[i + 1] == Apply(states[i], steps[i]);
    assert ReadStands(states[i], states[i].threads[t]) && ReadSound(states[i].threads[t]);
  }

  lemma Then(states: seq<State>, steps: seq<Step>, step: Step) returns (more: seq<State>, taken: seq<Step>)
    requires Behaviour(states, steps) && Enabled(states[|steps|], step)
    ensures Behaviour(more, taken) && more[0] == states[0] && more[|taken|] == Apply(states[|steps|], step)
  {
    more, taken := states + [Apply(states[|steps|], step)], steps + [step];
    forall i | 0 <= i < |taken| ensures Enabled(more[i], taken[i]) && more[i + 1] == Apply(more[i], taken[i]) {
      if i < |steps| {
        assert more[i] == states[i] && taken[i] == steps[i] && more[i + 1] == states[i + 1];
      }
    }
  }

  /** A first lookup for a subject, up to the question it asks. */
  lemma LookedUp(clock: int, subject: Subject) returns (states: seq<State>, steps: seq<Step>)
    ensures Behaviour(states, steps) && states[0] == Start(clock)
    ensures states[|steps|]
         == State(Shared(map[], {subject}, MAX_CONCURRENT_WARMS - 1), map[1 := Done, 2 := Asking(subject)], clock)
  {
    states, steps := Then([Start(clock)], [], Warm(1, subject));
    states, steps := Then(states, steps, CheckFirst(1));
    states, steps := Then(states, steps, TakeSlot(1));
    states, steps := Then(states, steps, StartThread(1, 2));
    states, steps := Then(states, steps, CheckAgain(2));
  }

  /** The entry may expire between the two reads, and a `feedback_ready` envelope then claims revision zero. */
  lemma RevisionMayBeMissed(clock: int, subject: Subject, revision: nat) returns (states: seq<State>, steps: seq<Step>)
    requires revision >= 1
    ensures Behaviour(states, steps) && states[0] == Start(clock)
    ensures var drafted := states[|steps|];
            && 3 in drafted.threads && drafted.threads[3].Drafted? && EnvelopeOf(drafted.threads[3]) == FeedbackReady
            && drafted.threads[3].read.value.revision == revision
            && drafted.threads[3].revision == 0
  {
    var entry := Entry(Approved, revision, clock + 1);
    states, steps := LookedUp(clock, subject);
    states, steps := Then(states, steps, Receive(2, Answered(SaysApproved, Some(revision)), 1));
    states, steps := Then(states, steps, Prepare(3, subject));
    assert states[|steps|].threads[3] == Drafting(subject, Some(entry), clock);
    states, steps := Then(states, steps, Tick(1));
    states, steps := Then(states, steps, ReadRevision(3));
  }
}
