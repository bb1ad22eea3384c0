/** What one call to share does: the choice it settles, the signals it stores, and what it records. */
module SharedSignals {
  import opened Basics
  import opened ConsentMachine

  // ------------------------------------------------------------------ keys and signals

  lemma KeysRead(product: string, account: string, ref: string, sessionRef: string)
    ensures StableKey(product, User(account, ref)) == product + ":account:" + account + ":user:" + ref
    ensures StableKey(product, Anonymous(ref)) == product + ":anonymous:" + ref
    ensures SessionKey(product, Anonymous(ref), sessionRef) == product + ":anonymous:" + ref + ":session:" + sessionRef
  {
    StableKeyOpens(product, User(account, ref));
    StableKeyOpens(product, Anonymous(ref));
    UserKeyReads(product, account, ref);
    assert ":anonymous:" == [':'] + ANONYMOUS + [':'] && ":session:" == [':'] + SESSION + [':'];
  }

  lemma UserKeyReads(product: string, account: string, ref: string)
    ensures product + [':'] + (ACCOUNT + [':'] + (account + [':'] + (USER + [':'] + ref)))
         == product + ":account:" + account + ":user:" + ref
  {
    assert ":account:" == [':'] + ACCOUNT + [':'] && ":user:" == [':'] + USER + [':'];
  }

  /** Listed in the catalog with its kind and value, of a listed provenance, and of a confidence from 0 to 1. */
  predicate Acceptable(rules: Rules, signal: Signal) {
    match signal
    case Signal(key, kind, value, provenance, confidence) =>
      && key in rules.catalog && rules.catalog[key].kind == kind && value in rules.catalog[key].values
      && provenance in rules.provenances
      && confidence.Finite? && 0.0 <= confidence.value && confidence.value <= 1.0
  }

  lemma AcceptableIsValid(rules: Rules, signal: Signal)
    ensures Acceptable(rules, signal) <==> ValidSignal(rules, signal)
  {}

  /** The places of the acceptable signals, and of the others, in order. */
  ghost predicate SplitAt(rules: Rules, signals: seq<Signal>, good: seq<nat>, bad: seq<nat>) {
    && (forall i: nat | i < |signals| :: (i in good <==> Acceptable(rules, signals[i])) && (i in bad <==> i !in good))
    && Rising(good, |signals|) && Rising(bad, |signals|)
  }

  ghost predicate Rising(places: seq<nat>, limit: nat) {
    (forall k | 0 <= k < |places| :: places[k] < limit)
    && forall k, l | 0 <= k < l < |places| :: places[k] < places[l]
  }

  ghost predicate Sifted(rules: Rules, signals: seq<Signal>, remember: bool, sessionRef: string, operation: string,
      accepted: seq<Stored>, rejected: seq<Signal>, good: seq<nat>, bad: seq<nat>)
  {
    && SplitAt(rules, signals, good, bad) && |accepted| == |good| && |rejected| == |bad|
    && (forall k | 0 <= k < |good| :: accepted[k] == Stored(signals[good[k]], remember, sessionRef, operation))
    && (forall k | 0 <= k < |bad| :: rejected[k] == signals[bad[k]])
  }

  lemma OneMorePlace(rules: Rules, signals: seq<Signal>, good: seq<nat>, bad: seq<nat>)
    requires signals != [] && SplitAt(rules, signals[..|signals| - 1], good, bad)
    ensures var last := |signals| - 1;
            if Acceptable(rules, signals[last]) then SplitAt(rules, signals, good + [last], bad)
            else SplitAt(rules, signals, good, bad + [last])
  {
    var last := |signals| - 1;
    var before := signals[..last];
    assert forall i: nat | i < last :: before[i] == signals[i];
    assert last !in good && last !in bad;
  }

  /** Every signal is accepted or rejected, in order; the accepted ones say where they came from. */
  lemma {:induction false} SignalsAreSifted(rules: Rules, signals: seq<Signal>, remember: bool, c: Caller,
      operation: string)
      returns (good: seq<nat>, bad: seq<nat>)
    ensures Sifted(rules, signals, remember, c.sessionRef, operation,
                   Accepted(rules, signals, remember, c, operation), Rejected(rules, signals), good, bad)
  {
    good, bad := [], [];
    if signals != [] {
      var before, last := signals[..|signals| - 1], signals[|signals| - 1];
      good, bad := SignalsAreSifted(rules, before, remember, c, operation);
      OneMorePlace(rules, signals, good, bad);
      AcceptableIsValid(rules, last);
      if Acceptable(rules, last) {
        good := good + [|before|];
      } else {
        bad := bad + [|before|];
      }
    }
  }

  // ------------------------------------------------------------------ what is stored

  /** The last acceptable signal of a key. */
  ghost predicate LastOf(rules: Rules, signals: seq<Signal>, key: string, i: nat) {
    && i < |signals| && Acceptable(rules, signals[i]) && signals[i].key == key
    && forall j | i < j < |signals| && signals[j].key == key :: !Acceptable(rules, signals[j])
  }

  ghost predicate NoneOf(rules: Rules, signals: seq<Signal>, key: string) {
    forall j | 0 <= j < |signals| && signals[j].key == key :: !Acceptable(rules, signals[j])
  }

  /** One key afterwards: its last acceptable signal, or what was there. */
  ghost predicate KeyIs(rules: Rules, before: Signals, signals: seq<Signal>, remember: bool, sessionRef: string,
      operation: string, after: Signals, key: string)
  {
    && (NoneOf(rules, signals, key) ==>
          (key in after <==> key in before) && (key in after ==> after[key] == before[key]))
    && (forall i: nat | LastOf(rules, signals, key, i) ::
          key in after && after[key] == Stored(signals[i], remember, sessionRef, operation))
  }

  lemma {:induction false} StoredIsLast(rules: Rules, before: Signals, signals: seq<Signal>, remember: bool, c: Caller,
      operation: string, key: string)
    ensures KeyIs(rules, before, signals, remember, c.sessionRef, operation,
                  StoreAll(before, Accepted(rules, signals, remember, c, operation)), key)
  {
    if signals != [] {
      var earlier, last := signals[..|signals| - 1], signals[|signals| - 1];
      var accepted := Accepted(rules, earlier, remember, c, operation);
      StoredIsLast(rules, before, earlier, remember, c, operation, key);
      AcceptableIsValid(rules, last);
      if Acceptable(rules, last) {
        var stored := Stored(last, remember, c.sessionRef, operation);
        assert (accepted + [stored])[..|accepted|] == accepted;
        LastIsLast(rules, signals, key);
      } else {
        assert accepted + [] == accepted;
        EarlierIsLast(rules, signals, key);
      }
      if Acceptable(rules, last) && last.key != key {
        EarlierIsLast(rules, signals, key);
      }
    }
  }

  /** An acceptable last signal is the last of its key. */
  lemma LastIsLast(rules: Rules, signals: seq<Signal>, key: string)
    requires signals != [] && Acceptable(rules, signals[|signals| - 1])
    ensures signals[|signals| - 1].key == key ==>
              !NoneOf(rules, signals, key) && forall i: nat | LastOf(rules, signals, key, i) :: i == |signals| - 1
  {}

  /** A last signal that does not count for the key changes nothing about it. */
  lemma EarlierIsLast(rules: Rules, signals: seq<Signal>, key: string)
    requires signals != []
    requires !Acceptable(rules, signals[|signals| - 1]) || signals[|signals| - 1].key != key
    ensures var earlier := signals[..|signals| - 1];
            && (NoneOf(rules, signals, key) <==> NoneOf(rules, earlier, key))
            && (forall i: nat | LastOf(rules, signals, key, i) :: LastOf(rules, earlier, key, i))
  {
    var earlier := signals[..|signals| - 1];
    assert forall j | 0 <= j < |earlier| :: earlier[j] == signals[j];
  }

  ghost predicate Updated(rules: Rules, before: Signals, signals: seq<Signal>, remember: bool, sessionRef: string,
      operation: string, after: Signals)
  {
    forall key :: KeyIs(rules, before, signals, remember, sessionRef, operation, after, key)
  }

  lemma StoringUpdates(rules: Rules, before: Signals, signals: seq<Signal>, remember: bool, c: Caller,
      operation: string)
    ensures Updated(rules, before, signals, remember, c.sessionRef, operation,
                    StoreAll(before, Accepted(rules, signals, remember, c, operation)))
  {
    forall key ensures KeyIs(rules, before, signals, remember, c.sessionRef, operation,
                             StoreAll(before, Accepted(rules, signals, remember, c, operation)), key) {
      StoredIsLast(rules, before, signals, remember, c, operation, key);
    }
  }

  // ------------------------------------------------------------------ one call

  /** The choice in force during the call: the one on record, or else the one it brings. */
  predicate InForce(before: Permission, choice: Option<Choice>, effective: Choice) {
    match before
    case Decided(c) => effective == c
    case NotSet => choice == Some(effective)
  }

  /** What the caller is shown afterwards, given the choice in force. */
  ghost predicate ShownAfter(rules: Rules, before: Retrieved, after: Retrieved, c: Caller, operation: string,
      effective: Choice, signals: seq<Signal>)
  {
    && after.permission == Decided(effective)
    && match effective
       case DontAllow => after.customer == before.customer && after.session == before.session
       case AlwaysAllow =>
         Updated(rules, before.customer, signals, true, c.sessionRef, operation, after.customer)
         && after.session == before.session
       case ThisSessionOnly =>
         Updated(rules, before.session, signals, false, c.sessionRef, operation, after.session)
         && after.customer == before.customer
  }

  /** What the caller gets back, given the choice in force. */
  ghost predicate Answers(rules: Rules, before: Retrieved, c: Caller, operation: string, effective: Choice,
      signals: seq<Signal>, shared: Shared, good: seq<nat>, bad: seq<nat>)
  {
    && shared.elicited == before.permission.NotSet?
    && if effective == DontAllow then
         shared.declined && !shared.answered && shared.accepted == [] && shared.rejected == []
         && shared.retention == NotRetained
       else
         && !shared.declined && (shared.answered <==> good != [])
         && shared.retention == (if effective == AlwaysAllow then Customer else Session)
         && Sifted(rules, signals, effective == AlwaysAllow, c.sessionRef, operation, shared.accepted, shared.rejected,
                   good, bad)
  }

  lemma SettledPermits(s: State, c: Caller, choice: Choice)
    requires PermissionFor(s, c) == NotSet || PermissionFor(s, c) == Decided(choice)
    ensures var t := SettledFor(s, c, choice);
            && PermissionFor(t, c) == Decided(choice)
            && t.customerSignals == s.customerSignals && t.sessionSignals == s.sessionSignals
  {}

  lemma ServeShows(rules: Rules, s: State, c: Caller, operation: string, effective: Choice, signals: seq<Signal>)
    requires PermissionFor(s, c) == Decided(effective)
    ensures ShownAfter(rules, View(s, c), View(Serve(rules, s, c, operation, effective, signals), c), c, operation,
                       effective, signals)
  {
    StoringUpdates(rules, View(s, c).customer, signals, true, c, operation);
    StoringUpdates(rules, View(s, c).session, signals, false, c, operation);
  }

  /**
   * Without a choice on record or in hand the call fails and shows nothing new. Otherwise the
   * choice in force, which an earlier choice decides against a later one, is on record from then
   * on; and what is stored is, key by key, the last acceptable signal, for the customer or for
   * the session as the choice says, and nothing after a refusal.
   */
  lemma SharingShows(rules: Rules, s: State, c: Caller, operation: string, choice: Option<Choice>, signals: seq<Signal>)
    ensures var after := View(ShareStep(rules, s, c, operation, choice, signals), c);
            if View(s, c).permission == NotSet && choice.None? then after == View(s, c)
            else exists effective ::
              InForce(View(s, c).permission, choice, effective)
              && ShownAfter(rules, View(s, c), after, c, operation, effective, signals)
  {
    if PermissionFor(s, c) != NotSet || choice.Some? {
      var effective := Effective(s, c, choice);
      var requested := Record(s, RequestCreated, c);
      SettledPermits(requested, c, effective);
      ServeShows(rules, SettledFor(requested, c, effective), c, operation, effective, signals);
      assert InForce(View(s, c).permission, choice, effective);
    }
  }

  /** And it answers so. */
  lemma SharingAnswers(rules: Rules, s: State, c: Caller, operation: string, choice: Option<Choice>,
      signals: seq<Signal>)
      returns (good: seq<nat>, bad: seq<nat>)
    ensures var result := ShareResult(rules, s, c, operation, choice, signals);
            if View(s, c).permission == NotSet && choice.None? then result == Err(ChoiceRequired)
            else result.Ok? && exists effective ::
              InForce(View(s, c).permission, choice, effective)
              && Answers(rules, View(s, c), c, operation, effective, signals, result.value, good, bad)
  {
    good, bad := [], [];
    if PermissionFor(s, c) != NotSet || choice.Some? {
      var effective := Effective(s, c, choice);
      if effective != DontAllow {
        good, bad := SignalsAreSifted(rules, signals, effective == AlwaysAllow, c, operation);
      }
      assert InForce(View(s, c).permission, choice, effective);
      assert Answers(rules, View(s, c), c, operation, effective, signals,
                     ShareResult(rules, s, c, operation, choice, signals).value, good, bad);
    }
  }

  // ------------------------------------------------------------------ other sessions of the customer

  predicate OtherSession(c: Caller, d: Caller) {
    CustomerKey(c) == CustomerKey(d) && CallerSession(c) != CallerSession(d)
  }

  /**
   * A first choice holds in the customer's other sessions unless it was for this session only;
   * a session's own choice is not touched, nor is what any other session stored.
   */
  lemma ChoicesReachOtherSessions(rules: Rules, s: State, c: Caller, d: Caller, operation: string, choice: Choice,
      signals: seq<Signal>)
    requires OtherSession(c, d) && View(s, c).permission == NotSet
    ensures var t := ShareStep(rules, s, c, operation, Some(choice), signals);
            && View(t, d).session == View(s, d).session
            && View(t, d).permission
               == (if View(s, d).permission == NotSet && choice != ThisSessionOnly then Decided(choice)
                   else View(s, d).permission)
  {}

  // ------------------------------------------------------------------ what is recorded

  function Events(s: State): seq<Event> {
    seq(|s.trace|, i requires 0 <= i < |s.trace| => s.trace[i].event)
  }

  lemma RecordAppends(s: State, event: Event, c: Caller)
    ensures Events(Record(s, event, c)) == Events(s) + [event]
  {}

  /** The events of one call, in order. */
  predicate EventsOf(before: Permission, choice: Option<Choice>, events: seq<Event>, accepted: nat, rejected: nat) {
    match before
    case Decided(DontAllow) => events == [RequestCreated, ContextDeclined]
    case Decided(_) => events == [RequestCreated, ContextSubmitted(accepted, rejected)]
    case NotSet =>
      match choice
      case None => events == [RequestCreated]
      case Some(DontAllow) =>
        events == [RequestCreated, PermissionElicited, PermissionDecided(DontAllow), ContextDeclined]
      case Some(c) =>
        events == [RequestCreated, PermissionElicited, PermissionDecided(c), ContextSubmitted(accepted, rejected)]
  }

  lemma ServeRecords(rules: Rules, s: State, c: Caller, operation: string, effective: Choice, signals: seq<Signal>,
      accepted: nat, rejected: nat)
    requires accepted == |Accepted(rules, signals, effective == AlwaysAllow, c, operation)|
    requires rejected == |Rejected(rules, signals)|
    ensures Events(Serve(rules, s, c, operation, effective, signals))
            == Events(s) + [Outcome(effective, accepted, rejected)]
  {}

  lemma DecideRecords(s: State, c: Caller, choice: Choice)
    ensures Events(Decide(s, c, choice)) == Events(s) + [PermissionElicited, PermissionDecided(choice)]
  {}

  /** The last event of a call under a choice. */
  function Outcome(effective: Choice, accepted: nat, rejected: nat): Event {
    if effective == DontAllow then ContextDeclined else ContextSubmitted(accepted, rejected)
  }

  lemma FirstChoiceRecords(rules: Rules, s: State, c: Caller, operation: string, choice: Choice, signals: seq<Signal>,
      accepted: nat, rejected: nat)
    requires PermissionFor(s, c) == NotSet
    requires accepted == |Accepted(rules, signals, choice == AlwaysAllow, c, operation)|
    requires rejected == |Rejected(rules, signals)|
    ensures Events(ShareStep(rules, s, c, operation, Some(choice), signals))
            == Events(s) + [RequestCreated, PermissionElicited, PermissionDecided(choice),
                            Outcome(choice, accepted, rejected)]
  {
    var requested := Record(s, RequestCreated, c);
    var decided := Decide(requested, c, choice);
    RecordAppends(s, RequestCreated, c);
    DecideRecords(requested, c, choice);
    ServeRecords(rules, decided, c, operation, choice, signals, accepted, rejected);
    FourTogether(Events(s), RequestCreated, PermissionElicited, PermissionDecided(choice),
                 Outcome(choice, accepted, rejected));
  }

  lemma LaterCallRecords(rules: Rules, s: State, c: Caller, operation: string, choice: Option<Choice>,
      signals: seq<Signal>, effective: Choice, accepted: nat, rejected: nat)
    requires PermissionFor(s, c) == Decided(effective)
    requires accepted == |Accepted(rules, signals, effective == AlwaysAllow, c, operation)|
    requires rejected == |Rejected(rules, signals)|
    ensures Events(ShareStep(rules, s, c, operation, choice, signals))
            == Events(s) + [RequestCreated, Outcome(effective, accepted, rejected)]
  {
    RecordAppends(s, RequestCreated, c);
    ServeRecords(rules, Record(s, RequestCreated, c), c, operation, effective, signals, accepted, rejected);
  }

  /** The trace grows by exactly these events; the numbers are those of the acceptable and the other signals. */
  lemma SharingRecords(rules: Rules, s: State, c: Caller, operation: string, choice: Option<Choice>,
      signals: seq<Signal>)
      returns (events: seq<Event>, good: seq<nat>, bad: seq<nat>)
    ensures Events(ShareStep(rules, s, c, operation, choice, signals)) == Events(s) + events
    ensures SplitAt(rules, signals, good, bad) && EventsOf(View(s, c).permission, choice, events, |good|, |bad|)
  {
    match PermissionFor(s, c)
    case NotSet =>
      if choice.None? {
        events := [RequestCreated];
        good, bad := SignalsAreSifted(rules, signals, true, c, operation);
        RecordAppends(s, RequestCreated, c);
      } else {
        good, bad := SignalsAreSifted(rules, signals, choice.value == AlwaysAllow, c, operation);
        FirstChoiceRecords(rules, s, c, operation, choice.value, signals, |good|, |bad|);
        events := [RequestCreated, PermissionElicited, PermissionDecided(choice.value),
                   Outcome(choice.value, |good|, |bad|)];
      }
    case Decided(effective) =>
      good, bad := SignalsAreSifted(rules, signals, effective == AlwaysAllow, c, operation);
      LaterCallRecords(rules, s, c, operation, choice, signals, effective, |good|, |bad|);
      events := [RequestCreated, Outcome(effective, |good|, |bad|)];
  }

  lemma FourTogether(front: seq<Event>, a: Event, b: Event, c: Event, d: Event)
    ensures front + [a] + [b, c] + [d] == front + [a, b, c, d]
  {}

  /** Retrieving records what the caller may do; ending a session, how many signals it removed. */
  lemma OthersRecord(s: State, c: Caller)
    ensures Events(RetrieveStep(s, c)) == Events(s) + [ContextRetrieved(View(s, c).permission)]
    ensures View(RetrieveStep(s, c), c) == View(s, c)
    ensures Events(EndStep(s, c)) == Events(s) + [SessionEnded(|View(s, c).session|)]
  {}
}
