/** Where cached consents come from, over every behaviour: the server's answers, and what envelopes make of them. */
module AnsweredConsents {
  import opened Basics
  import opened ConsentWarmer

  predicate Says(response: Response, verdict: Verdict, revision: int) {
    && revision >= 1
    && match verdict
       case Approved => response == Answered(SaysApproved, Some(revision))
       case Declined => response == Answered(SaysDeclined, Some(revision))
  }

  /** A lookup of the subject was answered with this verdict and revision, good until the entry expires. */
  predicate CameFrom(s: State, step: Step, subject: Subject, entry: Entry) {
    && step.Receive? && step.t in s.threads && s.threads[step.t] == Asking(subject)
    && Says(step.response, entry.verdict, entry.revision) && entry.expires == s.clock + step.ttl
  }

  predicate Received(states: seq<State>, steps: seq<Step>, n: nat, subject: Subject, entry: Entry)
    requires n <= |steps| < |states|
  {
    exists i | 0 <= i < n :: CameFrom(states[i], steps[i], subject, entry)
  }

  /** An answer with a verdict and a positive revision is cached as it is; any other leaves the cache alone. */
  lemma ReceiveCaches(s: State, step: Step)
    requires Enabled(s, step) && step.Receive?
    ensures var u, subject := Apply(s, step), s.threads[step.t].subject;
            && (forall v, r | Says(step.response, v, r) ::
              u.shared.cache == s.shared.cache[subject := Entry(v, r, s.clock + step.ttl)])
            && ((forall v, r :: !Says(step.response, v, r)) ==> u.shared.cache == s.shared.cache)
  {
    AcceptedHasRevision(step.response);
    if Accepted(step.response).Some? {
      var answer := Accepted(step.response).value;
      assert Says(step.response, answer.0, answer.1);
    }
  }

  /** Any other step may drop one expired entry from the cache, and adds none. */
  lemma OthersKeepCache(s: State, step: Step)
    requires Enabled(s, step) && !step.Receive?
    ensures var u := Apply(s, step);
            && (forall x | x in u.shared.cache :: x in s.shared.cache && u.shared.cache[x] == s.shared.cache[x])
            && (forall x | x in s.shared.cache && s.shared.cache[x].expires > s.clock :: x in u.shared.cache)
  {}

  /** Preparing reads the subject's entry unless it has expired. */
  lemma PrepareReads(s: State, t: ThreadId, subject: Subject)
    requires Enabled(s, Prepare(t, subject))
    ensures var u, cache := Apply(s, Prepare(t, subject)), s.shared.cache;
            && t in u.threads && u.threads[t].Drafting? && u.threads[t].subject == subject
            && u.threads[t].readAt == s.clock
            && u.threads[t].read
               == (if subject in cache && s.clock < cache[subject].expires then Some(cache[subject]) else None)
  {}

  lemma StillReceived(states: seq<State>, steps: seq<Step>, m: nat, n: nat, subject: Subject, entry: Entry)
    requires m <= n <= |steps| < |states| && Received(states, steps, m, subject, entry)
    ensures Received(states, steps, n, subject, entry)
  {}

  lemma NewEntry(s: State, step: Step, subject: Subject)
    requires Enabled(s, step) && subject in Apply(s, step).shared.cache
    ensures var entry := Apply(s, step).shared.cache[subject];
            (subject in s.shared.cache && s.shared.cache[subject] == entry) || CameFrom(s, step, subject, entry)
  {
    if step.Receive? {
      ReceiveCaches(s, step);
      AcceptedHasRevision(step.response);
      if Accepted(step.response).Some? {
        var answer := Accepted(step.response).value;
        assert Says(step.response, answer.0, answer.1);
      }
    } else {
      OthersKeepCache(s, step);
    }
  }

  /** Every cached entry is what the server answered to an earlier lookup of its subject. */
  lemma {:induction false} EntriesAreAnswers(states: seq<State>, steps: seq<Step>, clock: int, n: nat, subject: Subject)
    requires Behaviour(states, steps) && states[0] == Start(clock) && n < |states|
    requires subject in states[n].shared.cache
    ensures Received(states, steps, n, subject, states[n].shared.cache[subject])
  {
    if n > 0 {
      NewEntry(states[n - 1], steps[n - 1], subject);
      var s, entry := states[n - 1], states[n].shared.cache[subject];
      if subject in s.shared.cache && s.shared.cache[subject] == entry {
        EntriesAreAnswers(states, steps, clock, n - 1, subject);
        StillReceived(states, steps, n - 1, n, subject, entry);
      }
    }
  }

  predicate Reads(pc: Pc, subject: Subject, entry: Entry) {
    (pc.Drafting? || pc.Drafted?) && pc.subject == subject && pc.read == Some(entry)
  }

  lemma NewRead(s: State, step: Step, t: ThreadId, subject: Subject, entry: Entry)
    requires Enabled(s, step) && t in Apply(s, step).threads && Reads(Apply(s, step).threads[t], subject, entry)
    ensures || (t in s.threads && Reads(s.threads[t], subject, entry))
            || (subject in s.shared.cache && s.shared.cache[subject] == entry)
  {}

  /** What a thread read of a subject is what the server answered to an earlier lookup of it. */
  lemma {:induction false} ReadsAreAnswers(states: seq<State>, steps: seq<Step>, clock: int, n: nat, t: ThreadId,
      subject: Subject, entry: Entry)
    requires Behaviour(states, steps) && states[0] == Start(clock) && n < |states|
    requires t in states[n].threads && Reads(states[n].threads[t], subject, entry)
    ensures Received(states, steps, n, subject, entry)
  {
    if n > 0 {
      var s := states[n - 1];
      NewRead(s, steps[n - 1], t, subject, entry);
      if t in s.threads && Reads(s.threads[t], subject, entry) {
        ReadsAreAnswers(states, steps, clock, n - 1, t, subject, entry);
      } else {
        EntriesAreAnswers(states, steps, clock, n - 1, subject);
      }
      StillReceived(states, steps, n - 1, n, subject, entry);
    }
  }

  // ------------------------------------------------------------------ answers are remembered

  predicate Caches(s: State, subject: Subject, entry: Entry) {
    subject in s.shared.cache && s.shared.cache[subject] == entry
  }

  lemma LiveEntryStays(s: State, step: Step, subject: Subject, entry: Entry)
    requires AskedIsMissing(s) && Enabled(s, step) && Caches(s, subject, entry) && s.clock < entry.expires
    ensures Caches(Apply(s, step), subject, entry) && s.clock <= Apply(s, step).clock
  {}

  /** From the answer on the entry stands in the cache, whatever else happens, until it expires. */
  lemma {:induction false} AnswersAreRemembered(states: seq<State>, steps: seq<Step>, clock: int, m: nat, n: nat,
      subject: Subject, entry: Entry)
    requires Behaviour(states, steps) && states[0] == Start(clock) && m < n < |states|
    requires CameFrom(states[m], steps[m], subject, entry) && states[n - 1].clock < entry.expires
    ensures Caches(states[n], subject, entry) && states[n - 1].clock <= states[n].clock
  {
    ReadsStandAlways(states, steps, clock, n - 1);
    assert Enabled(states[n - 1], steps[n - 1]) && states[n] == Apply(states[n - 1], steps[n - 1]);
    if n == m + 1 {
      ReceiveCaches(states[m], steps[m]);
    } else {
      ClockRises(states, steps, n - 2);
      AnswersAreRemembered(states, steps, clock, m, n - 1, subject, entry);
      LiveEntryStays(states[n - 1], steps[n - 1], subject, entry);
    }
  }

  lemma ClockRises(states: seq<State>, steps: seq<Step>, i: nat)
    requires Behaviour(states, steps) && i < |steps|
    ensures states[i].clock <= states[i + 1].clock
  {}

  // ------------------------------------------------------------------ envelopes

  /** The envelope for every mode and every read. */
  lemma EnvelopeTable(mode: Mode, read: Option<Entry>)
    ensures EnvelopeFor(mode, ConsentFor(mode, read))
            == (match mode
                case NeverAsk => FeedbackReady
                case AskAlways => ConsentRequired
                case AskOnce =>
                  if read.None? then ConsentRequired
                  else if read.value.verdict == Approved then FeedbackReady
                  else NoEnvelope)
  {}

  /** An earlier lookup of the subject, still good at the time, was answered so. */
  predicate AnsweredSo(s: State, step: Step, subject: Subject, said: Reported, revision: int, at: int) {
    && step.Receive? && step.t in s.threads && s.threads[step.t] == Asking(subject)
    && step.response == Answered(said, Some(revision)) && revision >= 1 && at < s.clock + step.ttl
  }

  predicate WasAnswered(states: seq<State>, steps: seq<Step>, n: nat, subject: Subject, said: Reported, revision: int,
      at: int)
    requires n <= |steps| < |states|
  {
    exists i | 0 <= i < n :: AnsweredSo(states[i], steps[i], subject, said, revision, at)
  }

  lemma ReceivedIsAnswered(states: seq<State>, steps: seq<Step>, n: nat, subject: Subject, entry: Entry, at: int)
    requires n <= |steps| < |states| && Received(states, steps, n, subject, entry) && at < entry.expires
    ensures WasAnswered(states, steps, n, subject, if entry.verdict == Approved then SaysApproved else SaysDeclined,
                        entry.revision, at)
  {
    var i :| 0 <= i < n && CameFrom(states[i], steps[i], subject, entry);
    assert AnsweredSo(states[i], steps[i], subject, if entry.verdict == Approved then SaysApproved else SaysDeclined,
                      entry.revision, at);
  }

  /**
   * In ask-once mode feedback is asked for straight away only after the server answered
   * approved, no envelope is sent only after it answered declined, and the question is put
   * exactly when no unexpired answer was read.
   */
  lemma EnvelopesFollowTheServer(states: seq<State>, steps: seq<Step>, clock: int, n: nat, t: ThreadId)
    requires Behaviour(states, steps) && states[0] == Start(clock) && n < |states|
    requires t in states[n].threads && states[n].threads[t].Drafted?
    ensures var pc := states[n].threads[t];
            match EnvelopeOf(pc)
            case FeedbackReady =>
              pc.read.Some?
              && WasAnswered(states, steps, n, pc.subject, SaysApproved, pc.read.value.revision, pc.readAt)
            case NoEnvelope =>
              pc.read.Some?
              && WasAnswered(states, steps, n, pc.subject, SaysDeclined, pc.read.value.revision, pc.readAt)
            case ConsentRequired => pc.read.None?
  {
    var pc := states[n].threads[t];
    if pc.read.Some? {
      StartIsSound(clock);
      BehaviourKeepsInv(states, steps, n);
      assert ReadSound(pc);
      ReadsAreAnswers(states, steps, clock, n, t, pc.subject, pc.read.value);
      ReceivedIsAnswered(states, steps, n, pc.subject, pc.read.value, pc.readAt);
    }
  }
}
