/** The customer-context state machine: consent choices, stored signals and who may see them. */
module ConsentMachine {
  import opened Basics

  // ------------------------------------------------------------------ identities and keys

  /** Empty references count as missing. */
  datatype Identity = Identity(userRef: string, accountRef: string, anonymousRef: string)

  /** Whom an identity stands for: an account's user, or an anonymous visitor. */
  datatype Subject = User(account: string, user: string) | Anonymous(ref: string)

  function SubjectOf(identity: Identity): Option<Subject> {
    if identity.userRef != "" then
      Some(User(if identity.accountRef != "" then identity.accountRef else "-", identity.userRef))
    else if identity.anonymousRef != "" then Some(Anonymous(identity.anonymousRef))
    else None
  }

  function Join(parts: seq<string>): string
    requires parts != []
  {
    if |parts| == 1 then parts[0] else parts[0] + [':'] + Join(parts[1..])
  }

  const ACCOUNT := "account"
  const ANONYMOUS := "anonymous"
  const USER := "user"
  const SESSION := "session"

  function StableParts(product: string, subject: Subject): (parts: seq<string>)
    ensures parts != []
  {
    match subject
    case User(account, user) => [product, ACCOUNT, account, USER, user]
    case Anonymous(ref) => [product, ANONYMOUS, ref]
  }

  function StableKey(product: string, subject: Subject): string {
    Join(StableParts(product, subject))
  }

  function SessionKey(product: string, subject: Subject, sessionRef: string): string {
    StableKey(product, subject) + [':'] + SESSION + [':'] + sessionRef
  }

  predicate ColonFree(s: string) {
    ':' !in s
  }

  /** The parts that stand before others in every key; a user or visitor reference may hold the separator. */
  predicate FirmParts(product: string, subject: Subject) {
    ColonFree(product) && (subject.User? ==> ColonFree(subject.account))
  }

  predicate ColonFreeRef(subject: Subject) {
    match subject
    case User(_, user) => ColonFree(user)
    case Anonymous(ref) => ColonFree(ref)
  }

  /** Colon-free texts before the first colon can be told apart from what follows. */
  lemma CutAtColon(p: string, x: string, q: string, y: string)
    requires ColonFree(p) && ColonFree(q)
    ensures p + [':'] + x == q + [':'] + y <==> p == q && x == y
  {
    var whole := p + [':'] + x;
    if whole == q + [':'] + y {
      FirstColon(p, x);
      FirstColon(q, y);
      assert p == whole[..|p|] && q == whole[..|q|];
      assert x == whole[|p| + 1..] && y == whole[|q| + 1..];
    }
  }

  lemma FirstColon(p: string, x: string)
    requires ColonFree(p)
    ensures var whole := p + [':'] + x;
            whole[|p|] == ':' && forall i | 0 <= i < |p| :: whole[i] != ':'
  {
    var whole := p + [':'] + x;
    assert forall i | 0 <= i < |p| :: whole[i] == p[i];
  }

  lemma Glue(p: string, x: string, end: string)
    ensures (p + [':'] + x) + end == p + [':'] + (x + end)
  {}

  /** What follows the product in a key, up to the separator before `tail`. */
  function Middle(subject: Subject, tail: string): string {
    match subject
    case User(account, _) => ACCOUNT + [':'] + (account + [':'] + (USER + [':'] + tail))
    case Anonymous(_) => ANONYMOUS + [':'] + tail
  }

  function RefOf(subject: Subject): string {
    if subject.User? then subject.user else subject.ref
  }

  lemma StableKeyOpens(product: string, subject: Subject)
    ensures StableKey(product, subject) == product + [':'] + Middle(subject, RefOf(subject))
  {
    match subject
    case User(account, user) =>
      assert StableParts(product, subject)[1..] == [ACCOUNT, account, USER, user];
      assert [ACCOUNT, account, USER, user][1..] == [account, USER, user];
      assert [account, USER, user][1..] == [USER, user] && [USER, user][1..] == [user];
      assert Join([USER, user]) == USER + [':'] + user;
      assert Join([account, USER, user]) == account + [':'] + (USER + [':'] + user);
      assert Join([ACCOUNT, account, USER, user]) == ACCOUNT + [':'] + Join([account, USER, user]);
    case Anonymous(ref) =>
      assert StableParts(product, subject)[1..] == [ANONYMOUS, ref] && [ANONYMOUS, ref][1..] == [ref];
      assert Join([ANONYMOUS, ref]) == ANONYMOUS + [':'] + ref;
  }

  function SessionTail(subject: Subject, sessionRef: string): string {
    RefOf(subject) + [':'] + (SESSION + [':'] + sessionRef)
  }

  lemma MiddleAppends(subject: Subject, tail: string, end: string)
    ensures Middle(subject, tail) + end == Middle(subject, tail + end)
  {
    match subject
    case User(account, _) =>
      Glue(USER, tail, end);
      Glue(account, USER + [':'] + tail, end);
      Glue(ACCOUNT, account + [':'] + (USER + [':'] + tail), end);
    case Anonymous(_) => Glue(ANONYMOUS, tail, end);
  }

  lemma SessionKeyOpens(product: string, subject: Subject, sessionRef: string)
    ensures SessionKey(product, subject, sessionRef)
            == product + [':'] + Middle(subject, SessionTail(subject, sessionRef))
  {
    StableKeyOpens(product, subject);
    var ref, end := RefOf(subject), [':'] + (SESSION + [':'] + sessionRef);
    assert ref + end == SessionTail(subject, sessionRef);
    MiddleAppends(subject, ref, end);
    Glue(product, Middle(subject, ref), end);
    assert SessionKey(product, subject, sessionRef) == StableKey(product, subject) + end;
  }

  /** Users of one account, or anonymous visitors. */
  predicate SameKind(a: Subject, b: Subject) {
    a.User? == b.User? && (a.User? ==> a.account == b.account)
  }

  lemma MiddlesMeetIff(a: Subject, x: string, b: Subject, y: string)
    requires a.User? ==> ColonFree(a.account)
    requires b.User? ==> ColonFree(b.account)
    ensures Middle(a, x) == Middle(b, y) <==> SameKind(a, b) && x == y
  {
    CutAtColon(ANONYMOUS, x, ANONYMOUS, y);
    if a.User? {
      var end := USER + [':'] + x;
      if b.User? {
        CutAtColon(USER, x, USER, y);
        CutAtColon(a.account, end, b.account, USER + [':'] + y);
        CutAtColon(ACCOUNT, a.account + [':'] + end, ACCOUNT, b.account + [':'] + (USER + [':'] + y));
      } else {
        CutAtColon(ACCOUNT, a.account + [':'] + end, ANONYMOUS, y);
      }
    } else if b.User? {
      CutAtColon(ANONYMOUS, x, ACCOUNT, b.account + [':'] + (USER + [':'] + y));
    }
  }

  /** With no colon in products and accounts, one customer key means one product and one subject. */
  lemma CustomerKeysMeetIff(p: string, a: Subject, q: string, b: Subject)
    requires FirmParts(p, a) && FirmParts(q, b)
    ensures StableKey(p, a) == StableKey(q, b) <==> p == q && a == b
  {
    StableKeyOpens(p, a);
    StableKeyOpens(q, b);
    CutAtColon(p, Middle(a, RefOf(a)), q, Middle(b, RefOf(b)));
    MiddlesMeetIff(a, RefOf(a), b, RefOf(b));
  }

  /**
   * Session keys then meet exactly when reference and session read the same joined up: for
   * references without a colon only when both are equal.
   */
  lemma SessionKeysMeetIff(p: string, a: Subject, s: string, q: string, b: Subject, t: string)
    requires FirmParts(p, a) && FirmParts(q, b)
    ensures SessionKey(p, a, s) == SessionKey(q, b, t) <==>
            p == q && SameKind(a, b) && SessionTail(a, s) == SessionTail(b, t)
    ensures ColonFreeRef(a) && ColonFreeRef(b) ==>
              (SessionKey(p, a, s) == SessionKey(q, b, t) <==> p == q && a == b && s == t)
  {
    SessionKeyOpens(p, a, s);
    SessionKeyOpens(q, b, t);
    CutAtColon(p, Middle(a, SessionTail(a, s)), q, Middle(b, SessionTail(b, t)));
    MiddlesMeetIff(a, SessionTail(a, s), b, SessionTail(b, t));
    if ColonFreeRef(a) && ColonFreeRef(b) {
      CutAtColon(RefOf(a), SESSION + [':'] + s, RefOf(b), SESSION + [':'] + t);
      CutAtColon(SESSION, s, SESSION, t);
    }
  }

  /** Accounts that a key does not tell apart: the same, or both missing or "-". */
  predicate SameAccount(a: string, b: string) {
    a == b || (a in {"", "-"} && b in {"", "-"})
  }

  /** Two identities stand for one subject exactly when the references that matter agree, up to a missing account. */
  lemma SubjectsMeetIff(a: Identity, b: Identity)
    requires SubjectOf(a).Some? && SubjectOf(b).Some?
    ensures SubjectOf(a) == SubjectOf(b) <==>
      (a.userRef == b.userRef
       && if a.userRef != "" then SameAccount(a.accountRef, b.accountRef) else a.anonymousRef == b.anonymousRef)
  {}

  /** Account "-" is taken for no account at all. */
  lemma DashAccountCollides(product: string, user: string)
    requires user != ""
    ensures SubjectOf(Identity(user, "-", "")).Some? && SubjectOf(Identity(user, "", "")).Some?
    ensures StableKey(product, SubjectOf(Identity(user, "-", "")).value)
            == StableKey(product, SubjectOf(Identity(user, "", "")).value)
  {}

  /** A colon in a visitor's or user's reference can make sessions of two of them one. */
  lemma ColonCollides(product: string, ref: string, s: string, t: string)
    ensures SessionKey(product, Anonymous(ref), s + [':'] + SESSION + [':'] + t)
         == SessionKey(product, Anonymous(ref + [':'] + SESSION + [':'] + s), t)
  {
    StableKeyOpens(product, Anonymous(ref));
    StableKeyOpens(product, Anonymous(ref + [':'] + SESSION + [':'] + s));
  }

  /** A colon in an account can make two users one customer. */
  lemma AccountColonCollides(product: string, account: string, x: string, y: string)
    ensures StableKey(product, User(account + [':'] + (USER + [':'] + x), y))
         == StableKey(product, User(account, x + [':'] + (USER + [':'] + y)))
  {
    var longer, end := account + [':'] + (USER + [':'] + x), [':'] + (USER + [':'] + y);
    StableKeyOpens(product, User(longer, y));
    StableKeyOpens(product, User(account, x + end));
    Glue(account, USER + [':'] + x, end);
    Glue(USER, x, end);
    assert longer + end == longer + [':'] + (USER + [':'] + y);
    assert x + end == x + [':'] + (USER + [':'] + y);
  }

  /** And so can one in a product. */
  lemma ProductColonCollides(product: string, x: string, y: string)
    ensures StableKey(product + [':'] + (ANONYMOUS + [':'] + x), Anonymous(y))
         == StableKey(product, Anonymous(x + [':'] + (ANONYMOUS + [':'] + y)))
  {
    var longer, end := product + [':'] + (ANONYMOUS + [':'] + x), [':'] + (ANONYMOUS + [':'] + y);
    StableKeyOpens(longer, Anonymous(y));
    StableKeyOpens(product, Anonymous(x + end));
    Glue(product, ANONYMOUS + [':'] + x, end);
    Glue(ANONYMOUS, x, end);
    assert longer + end == longer + [':'] + (ANONYMOUS + [':'] + y);
    assert x + end == x + [':'] + (ANONYMOUS + [':'] + y);
  }

  // ------------------------------------------------------------------ the machine

  datatype Choice = AlwaysAllow | ThisSessionOnly | DontAllow

  datatype Permission = NotSet | Decided(choice: Choice)

  datatype Confidence = Finite(value: real) | NotFinite

  datatype Signal = Signal(key: string, kind: string, value: string, provenance: string, confidence: Confidence)

  /** A signal as stored, with where it came from. */
  datatype Stored = Stored(signal: Signal, remember: bool, sessionRef: string, operation: string)

  datatype Definition = Definition(kind: string, values: set<string>)

  /** What may be shared at all. */
  datatype Rules = Rules(catalog: map<string, Definition>, provenances: set<string>)

  predicate ValidSignal(rules: Rules, signal: Signal) {
    && signal.key in rules.catalog
    && signal.kind == rules.catalog[signal.key].kind
    && signal.value in rules.catalog[signal.key].values
    && signal.provenance in rules.provenances
    && signal.confidence.Finite?
    && 0.0 <= signal.confidence.value <= 1.0
  }

  datatype Event =
    | ContextRetrieved(permission: Permission)
    | RequestCreated
    | PermissionElicited
    | PermissionDecided(choice: Choice)
    | ContextDeclined
    | ContextSubmitted(accepted: nat, rejected: nat)
    | SessionEnded(removed: nat)

  datatype Recorded = Recorded(sequence: nat, event: Event, product: string, sessionRef: string)

  type Signals = map<string, Stored>

  datatype State = State(
    customerConsent: map<string, Choice>,
    sessionConsent: map<string, Choice>,
    customerSignals: map<string, Signals>,
    sessionSignals: map<string, Signals>,
    trace: seq<Recorded>,
    sequence: nat)

  /** Who is acting, for which product and in which session. */
  datatype Caller = Caller(product: string, subject: Subject, sessionRef: string)

  function CustomerKey(c: Caller): string {
    StableKey(c.product, c.subject)
  }

  function CallerSession(c: Caller): string {
    SessionKey(c.product, c.subject, c.sessionRef)
  }

  function CallerOf(product: string, identity: Identity, sessionRef: string): Option<Caller> {
    match SubjectOf(identity)
    case Some(subject) => Some(Caller(product, subject, sessionRef))
    case None => None
  }

  datatype Error = IdentityRequired | ChoiceRequired

  datatype Retention = Customer | Session | NotRetained

  datatype Shared = Shared(answered: bool, declined: bool, elicited: bool, accepted: seq<Stored>,
      rejected: seq<Signal>, retention: Retention)

  datatype Retrieved = Retrieved(customer: Signals, session: Signals, permission: Permission)

  function Lookup<V>(m: map<string, V>, key: string, missing: V): V {
    if key in m then m[key] else missing
  }

  function PermissionFor(s: State, c: Caller): Permission {
    if CallerSession(c) in s.sessionConsent then Decided(s.sessionConsent[CallerSession(c)])
    else if CustomerKey(c) in s.customerConsent then Decided(s.customerConsent[CustomerKey(c)])
    else NotSet
  }

  function Record(s: State, event: Event, c: Caller): State {
    s.(sequence := s.sequence + 1, trace := s.trace + [Recorded(s.sequence + 1, event, c.product, c.sessionRef)])
  }

  /** What a caller is shown. */
  function View(s: State, c: Caller): Retrieved {
    Retrieved(Lookup(s.customerSignals, CustomerKey(c), map[]), Lookup(s.sessionSignals, CallerSession(c), map[]),
        PermissionFor(s, c))
  }

  function RetrieveStep(s: State, c: Caller): State {
    Record(s, ContextRetrieved(PermissionFor(s, c)), c)
  }

  function Accepted(rules: Rules, signals: seq<Signal>, remember: bool, c: Caller, operation: string): seq<Stored> {
    if signals == [] then []
    else
      Accepted(rules, signals[..|signals| - 1], remember, c, operation)
      + (var last := signals[|signals| - 1];
         if ValidSignal(rules, last) then [Stored(last, remember, c.sessionRef, operation)] else [])
  }

  function Rejected(rules: Rules, signals: seq<Signal>): seq<Signal> {
    if signals == [] then []
    else
      var last := signals[|signals| - 1];
      Rejected(rules, signals[..|signals| - 1]) + (if ValidSignal(rules, last) then [] else [last])
  }

  /** Later signals replace earlier ones of the same key. */
  function StoreAll(stored: Signals, accepted: seq<Stored>): Signals {
    if accepted == [] then stored
    else
      var last := accepted[|accepted| - 1];
      StoreAll(stored, accepted[..|accepted| - 1])[last.signal.key := last]
  }

  /** A first request settles the choice: for the session, or for the customer for good. */
  function Decide(s: State, c: Caller, choice: Choice): State {
    var elicited := Record(s, PermissionElicited, c);
    var decided :=
      if choice == ThisSessionOnly then elicited.(sessionConsent := elicited.sessionConsent[CallerSession(c) := choice])
      else elicited.(customerConsent := elicited.customerConsent[CustomerKey(c) := choice]);
    Record(decided, PermissionDecided(choice), c)
  }

  /** Under a choice that allows it, the valid signals are stored where the choice says. */
  function Submit(rules: Rules, s: State, c: Caller, operation: string, choice: Choice, signals: seq<Signal>): State {
    var accepted := Accepted(rules, signals, choice == AlwaysAllow, c, operation);
    var stored :=
      if choice == AlwaysAllow then
        s.(customerSignals :=
            s.customerSignals[CustomerKey(c) := StoreAll(Lookup(s.customerSignals, CustomerKey(c), map[]), accepted)])
      else
        s.(sessionSignals :=
            s.sessionSignals[CallerSession(c) :=
                StoreAll(Lookup(s.sessionSignals, CallerSession(c), map[]), accepted)]);
    Record(stored, ContextSubmitted(|accepted|, |Rejected(rules, signals)|), c)
  }

  /** The choice in force: the one on record, or else the one just made. */
  function Effective(s: State, c: Caller, choice: Option<Choice>): Choice
    requires PermissionFor(s, c) != NotSet || choice.Some?
  {
    if PermissionFor(s, c) == NotSet then choice.value else PermissionFor(s, c).choice
  }

  /** The choice put on record, unless there was one. */
  function SettledFor(s: State, c: Caller, choice: Choice): State {
    if PermissionFor(s, c) == NotSet then Decide(s, c, choice) else s
  }

  function Serve(rules: Rules, s: State, c: Caller, operation: string, choice: Choice, signals: seq<Signal>): State {
    if choice == DontAllow then Record(s, ContextDeclined, c) else Submit(rules, s, c, operation, choice, signals)
  }

  function ShareStep(rules: Rules, s: State, c: Caller, operation: string, choice: Option<Choice>,
      signals: seq<Signal>): State {
    var requested := Record(s, RequestCreated, c);
    if PermissionFor(s, c) == NotSet && choice.None? then requested
    else
      var effective := Effective(s, c, choice);
      Serve(rules, SettledFor(requested, c, effective), c, operation, effective, signals)
  }

  function ShareResult(rules: Rules, s: State, c: Caller, operation: string, choice: Option<Choice>,
      signals: seq<Signal>): Result<Shared, Error> {
    var existing := PermissionFor(s, c);
    if existing == NotSet && choice.None? then Err(ChoiceRequired)
    else
      var effective := Effective(s, c, choice);
      if effective == DontAllow then Ok(Shared(false, true, existing == NotSet, [], [], NotRetained))
      else
        var accepted := Accepted(rules, signals, effective == AlwaysAllow, c, operation);
        Ok(Shared(accepted != [], false, existing == NotSet, accepted, Rejected(rules, signals),
                  if effective == AlwaysAllow then Customer else Session))
  }

  function EndStep(s: State, c: Caller): State {
    var removed := |Lookup(s.sessionSignals, CallerSession(c), map[])|;
    Record(s.(sessionSignals := s.sessionSignals - {CallerSession(c)},
              sessionConsent := s.sessionConsent - {CallerSession(c)}),
           SessionEnded(removed), c)
  }

  // ------------------------------------------------------------------ as it is written

  class CustomerContextStateMachine {
    const rules: Rules
    var customerConsent: map<string, Choice>
    var sessionConsent: map<string, Choice>
    var customerSignals: map<string, Signals>
    var sessionSignals: map<string, Signals>
    var trace: seq<Recorded>
    var sequence: nat

    function Snapshot(): State
      reads this
    {
      State(customerConsent, sessionConsent, customerSignals, sessionSignals, trace, sequence)
    }

    constructor (rules: Rules)
      ensures this.rules == rules && Snapshot() == Start()
    {
      this.rules := rules;
      customerConsent, sessionConsent := map[], map[];
      customerSignals, sessionSignals := map[], map[];
      trace, sequence := [], 0;
    }

    method RecordEvent(event: Event, c: Caller)
      modifies this`trace, this`sequence
      ensures Snapshot() == Record(old(Snapshot()), event, c)
    {
      sequence := sequence + 1;
      trace := trace + [Recorded(sequence, event, c.product, c.sessionRef)];
    }

    /** What the caller may do: the session's choice first, then the customer's. */
    function CurrentPermission(c: Caller): Permission
      reads this
    {
      PermissionFor(Snapshot(), c)
    }

    method Retrieve(product: string, identity: Identity, sessionRef: string) returns (result: Result<Retrieved, Error>)
      modifies this`trace, this`sequence
      ensures match CallerOf(product, identity, sessionRef)
              case None => result == Err(IdentityRequired) && Snapshot() == old(Snapshot())
              case Some(c) => result == Ok(View(old(Snapshot()), c)) && Snapshot() == RetrieveStep(old(Snapshot()), c)
    {
      var caller := CallerOf(product, identity, sessionRef);
      if caller.None? {
        return Err(IdentityRequired);
      }
      var c := caller.value;
      result := Ok(Retrieved(Lookup(customerSignals, CustomerKey(c), map[]),
          Lookup(sessionSignals, CallerSession(c), map[]), CurrentPermission(c)));
      RecordEvent(ContextRetrieved(CurrentPermission(c)), c);
    }

    method DecideChoice(c: Caller, choice: Choice)
      modifies this
      ensures Snapshot() == Decide(old(Snapshot()), c, choice)
    {
      RecordEvent(PermissionElicited, c);
      if choice == ThisSessionOnly {
        sessionConsent := sessionConsent[CallerSession(c) := choice];
      } else {
        customerConsent := customerConsent[CustomerKey(c) := choice];
      }
      RecordEvent(PermissionDecided(choice), c);
    }

    method SubmitSignals(c: Caller, operation: string, choice: Choice, signals: seq<Signal>)
        returns (accepted: seq<Stored>, rejected: seq<Signal>)
      requires choice != DontAllow
      modifies this`customerSignals, this`sessionSignals, this`trace, this`sequence
      ensures Snapshot() == Submit(rules, old(Snapshot()), c, operation, choice, signals)
      ensures accepted == Accepted(rules, signals, choice == AlwaysAllow, c, operation)
      ensures rejected == Rejected(rules, signals)
    {
      accepted, rejected := Sift(rules, signals, choice == AlwaysAllow, c, operation);
      if choice == AlwaysAllow {
        var stored := PutAll(Lookup(customerSignals, CustomerKey(c), map[]), accepted);
        customerSignals := customerSignals[CustomerKey(c) := stored];
      } else {
        var stored := PutAll(Lookup(sessionSignals, CallerSession(c), map[]), accepted);
        sessionSignals := sessionSignals[CallerSession(c) := stored];
      }
      RecordEvent(ContextSubmitted(|accepted|, |rejected|), c);
    }

    method Share(product: string, identity: Identity, sessionRef: string, operation: string, choice: Option<Choice>,
        signals: seq<Signal>)
        returns (result: Result<Shared, Error>)
      modifies this
      ensures match CallerOf(product, identity, sessionRef)
              case None => result == Err(IdentityRequired) && Snapshot() == old(Snapshot())
              case Some(c) => (
                && result == ShareResult(rules, old(Snapshot()), c, operation, choice, signals)
                && Snapshot() == ShareStep(rules, old(Snapshot()), c, operation, choice, signals))
    {
      var caller := CallerOf(product, identity, sessionRef);
      if caller.None? {
        return Err(IdentityRequired);
      }
      var c := caller.value;
      var existing := CurrentPermission(c);
      RecordEvent(RequestCreated, c);
      if existing == NotSet && choice.None? {
        return Err(ChoiceRequired);
      }
      var effective := if existing == NotSet then choice.value else existing.choice;
      if existing == NotSet {
        DecideChoice(c, effective);
      }
      if effective == DontAllow {
        RecordEvent(ContextDeclined, c);
        return Ok(Shared(false, true, existing == NotSet, [], [], NotRetained));
      }
      var accepted, rejected := SubmitSignals(c, operation, effective, signals);
      result := Ok(Shared(accepted != [], false, existing == NotSet, accepted, rejected,
                          if effective == AlwaysAllow then Customer else Session));
    }

    method EndSession(product: string, identity: Identity, sessionRef: string) returns (result: Result<nat, Error>)
      modifies this
      ensures match CallerOf(product, identity, sessionRef)
              case None => result == Err(IdentityRequired) && Snapshot() == old(Snapshot())
              case Some(c) => (
                && result == Ok(|View(old(Snapshot()), c).session|)
                && Snapshot() == EndStep(old(Snapshot()), c))
    {
      var caller := CallerOf(product, identity, sessionRef);
      if caller.None? {
        return Err(IdentityRequired);
      }
      var c := caller.value;
      var removed := |Lookup(sessionSignals, CallerSession(c), map[])|;
      sessionSignals := sessionSignals - {CallerSession(c)};
      sessionConsent := sessionConsent - {CallerSession(c)};
      RecordEvent(SessionEnded(removed), c);
      result := Ok(removed);
    }
  }

  method Sift(rules: Rules, signals: seq<Signal>, remember: bool, c: Caller, operation: string)
      returns (accepted: seq<Stored>, rejected: seq<Signal>)
    ensures accepted == Accepted(rules, signals, remember, c, operation)
    ensures rejected == Rejected(rules, signals)
  {
    accepted, rejected := [], [];
    for i := 0 to |signals|
      invariant accepted == Accepted(rules, signals[..i], remember, c, operation)
      invariant rejected == Rejected(rules, signals[..i])
    {
      assert signals[..i + 1][..i] == signals[..i];
      if ValidSignal(rules, signals[i]) {
        accepted := accepted + [Stored(signals[i], remember, c.sessionRef, operation)];
      } else {
        rejected := rejected + [signals[i]];
      }
    }
    assert signals[..|signals|] == signals;
  }

  method PutAll(stored: Signals, accepted: seq<Stored>) returns (updated: Signals)
    ensures updated == StoreAll(stored, accepted)
  {
    updated := stored;
    for i := 0 to |accepted|
      invariant updated == StoreAll(stored, accepted[..i])
    {
      assert accepted[..i + 1][..i] == accepted[..i];
      updated := updated[accepted[i].signal.key := accepted[i]];
    }
    assert accepted[..|accepted|] == accepted;
  }

  function Start(): State {
    State(map[], map[], map[], map[], [], 0)
  }

  // ------------------------------------------------------------------ over all runs

  datatype Step =
    | Retrieve(caller: Caller)
    | Share(caller: Caller, operation: string, choice: Option<Choice>, signals: seq<Signal>)
    | End(caller: Caller)

  function Apply(rules: Rules, s: State, step: Step): State {
    match step
    case Retrieve(c) => RetrieveStep(s, c)
    case Share(c, operation, choice, signals) => ShareStep(rules, s, c, operation, choice, signals)
    case End(c) => EndStep(s, c)
  }

  /** A run from any state: one step after another. */
  predicate Run(rules: Rules, states: seq<State>, steps: seq<Step>) {
    && |states| == |steps| + 1
    && (forall i | 0 <= i < |steps| :: states[i + 1] == Apply(rules, states[i], steps[i]))
  }

  /** Everything stored passed validation and says where it may be kept. */
  ghost predicate StoredSoundly(rules: Rules, signals: Signals, remember: bool) {
    forall k | k in signals ::
      signals[k].signal.key == k && ValidSignal(rules, signals[k].signal) && signals[k].remember == remember
  }

  ghost predicate ConsentInv(s: State) {
    && (forall k | k in s.customerConsent :: s.customerConsent[k] != ThisSessionOnly)
    && (forall k | k in s.sessionConsent :: s.sessionConsent[k] == ThisSessionOnly)
    && (forall k | k in s.customerSignals :: k in s.customerConsent && s.customerConsent[k] == AlwaysAllow)
    && (forall k | k in s.sessionSignals :: k in s.sessionConsent)
  }

  ghost predicate SignalsInv(rules: Rules, s: State) {
    && (forall k | k in s.customerSignals :: StoredSoundly(rules, s.customerSignals[k], true))
    && (forall k | k in s.sessionSignals :: StoredSoundly(rules, s.sessionSignals[k], false))
  }

  ghost predicate TraceInv(s: State) {
    && |s.trace| == s.sequence
    && (forall i | 0 <= i < |s.trace| :: s.trace[i].sequence == i + 1)
  }

  ghost predicate Inv(rules: Rules, s: State) {
    ConsentInv(s) && SignalsInv(rules, s) && TraceInv(s)
  }

  lemma RecordKeepsTrace(s: State, event: Event, c: Caller)
    requires TraceInv(s)
    ensures TraceInv(Record(s, event, c))
  {}

  lemma DecideKeepsTrace(s: State, c: Caller, choice: Choice)
    requires TraceInv(s)
    ensures TraceInv(Decide(s, c, choice))
  {
    RecordKeepsTrace(s, PermissionElicited, c);
  }

  lemma SubmitKeepsTrace(rules: Rules, s: State, c: Caller, operation: string, choice: Choice, signals: seq<Signal>)
    requires TraceInv(s)
    ensures TraceInv(Submit(rules, s, c, operation, choice, signals))
  {}

  lemma ServeKeepsTrace(rules: Rules, s: State, c: Caller, operation: string, choice: Choice, signals: seq<Signal>)
    requires TraceInv(s)
    ensures TraceInv(Serve(rules, s, c, operation, choice, signals))
  {
    if choice != DontAllow {
      SubmitKeepsTrace(rules, s, c, operation, choice, signals);
    }
  }

  lemma StepKeepsTrace(rules: Rules, s: State, step: Step)
    requires TraceInv(s)
    ensures TraceInv(Apply(rules, s, step))
  {
    if step.Share? && (PermissionFor(s, step.caller) != NotSet || step.choice.Some?) {
      var c, choice := step.caller, Effective(s, step.caller, step.choice);
      var requested := Record(s, RequestCreated, c);
      RecordKeepsTrace(s, RequestCreated, c);
      DecideKeepsTrace(requested, c, choice);
      ServeKeepsTrace(rules, SettledFor(requested, c, choice), c, step.operation, choice, step.signals);
    }
  }

  /** A choice is on record where it belongs. */
  predicate OnRecord(s: State, c: Caller, choice: Choice) {
    match choice
    case AlwaysAllow => CustomerKey(c) in s.customerConsent && s.customerConsent[CustomerKey(c)] == AlwaysAllow
    case ThisSessionOnly => CallerSession(c) in s.sessionConsent
    case DontAllow => true
  }

  lemma SettledKeepsConsent(s: State, c: Caller, choice: Choice)
    requires ConsentInv(s) && (PermissionFor(s, c) != NotSet ==> PermissionFor(s, c) == Decided(choice))
    ensures ConsentInv(SettledFor(s, c, choice)) && OnRecord(SettledFor(s, c, choice), c, choice)
  {}

  lemma ServeKeepsConsent(rules: Rules, s: State, c: Caller, operation: string, choice: Choice, signals: seq<Signal>)
    requires ConsentInv(s) && OnRecord(s, c, choice)
    ensures ConsentInv(Serve(rules, s, c, operation, choice, signals))
  {}

  lemma StepKeepsConsent(rules: Rules, s: State, step: Step)
    requires ConsentInv(s)
    ensures ConsentInv(Apply(rules, s, step))
  {
    if step.Share? && (PermissionFor(s, step.caller) != NotSet || step.choice.Some?) {
      var c, choice := step.caller, Effective(s, step.caller, step.choice);
      var requested := Record(s, RequestCreated, c);
      SettledKeepsConsent(requested, c, choice);
      ServeKeepsConsent(rules, SettledFor(requested, c, choice), c, step.operation, choice, step.signals);
    }
  }

  lemma {:induction false} StoringStaysSound(rules: Rules, stored: Signals, signals: seq<Signal>, remember: bool,
      c: Caller, operation: string)
    requires StoredSoundly(rules, stored, remember)
    ensures StoredSoundly(rules, StoreAll(stored, Accepted(rules, signals, remember, c, operation)), remember)
  {
    if signals != [] {
      var before := signals[..|signals| - 1];
      var accepted := Accepted(rules, before, remember, c, operation);
      StoringStaysSound(rules, stored, before, remember, c, operation);
      var last := Stored(signals[|signals| - 1], remember, c.sessionRef, operation);
      assert (accepted + [last])[..|accepted|] == accepted;
      assert accepted + [] == accepted;
    }
  }

  lemma SubmitKeepsSignals(rules: Rules, s: State, c: Caller, operation: string, choice: Choice, signals: seq<Signal>)
    requires SignalsInv(rules, s)
    ensures SignalsInv(rules, Submit(rules, s, c, operation, choice, signals))
  {
    var remember := choice == AlwaysAllow;
    var old_ := if remember then Lookup(s.customerSignals, CustomerKey(c), map[])
      else Lookup(s.sessionSignals, CallerSession(c), map[]);
    assert StoredSoundly(rules, old_, remember);
    StoringStaysSound(rules, old_, signals, remember, c, operation);
  }

  lemma ServeKeepsSignals(rules: Rules, s: State, c: Caller, operation: string, choice: Choice, signals: seq<Signal>)
    requires SignalsInv(rules, s)
    ensures SignalsInv(rules, Serve(rules, s, c, operation, choice, signals))
  {
    if choice != DontAllow {
      SubmitKeepsSignals(rules, s, c, operation, choice, signals);
    }
  }

  lemma StepKeepsSignals(rules: Rules, s: State, step: Step)
    requires SignalsInv(rules, s)
    ensures SignalsInv(rules, Apply(rules, s, step))
  {
    if step.Share? && (PermissionFor(s, step.caller) != NotSet || step.choice.Some?) {
      var c, choice := step.caller, Effective(s, step.caller, step.choice);
      var settled := SettledFor(Record(s, RequestCreated, c), c, choice);
      assert SignalsInv(rules, settled);
      ServeKeepsSignals(rules, settled, c, step.operation, choice, step.signals);
    }
  }

  /**
   * In every state of every run: stored customer signals only under a permanent
   * `always_allow`, stored session signals only under a live `this_session_only`, all of
   * them valid, and the trace numbered without gaps.
   */
  lemma {:induction false} RunsKeepInv(rules: Rules, states: seq<State>, steps: seq<Step>, i: nat)
    requires Run(rules, states, steps) && Inv(rules, states[0]) && i < |states|
    ensures Inv(rules, states[i])
  {
    if i > 0 {
      RunsKeepInv(rules, states, steps, i - 1);
      StepKeepsConsent(rules, states[i - 1], steps[i - 1]);
      StepKeepsSignals(rules, states[i - 1], steps[i - 1]);
      StepKeepsTrace(rules, states[i - 1], steps[i - 1]);
    }
  }

  ghost predicate ChoicesKept(s: State, t: State) {
    forall k | k in s.customerConsent :: k in t.customerConsent && t.customerConsent[k] == s.customerConsent[k]
  }

  lemma SettledKeepsChoices(s: State, c: Caller, choice: Choice)
    ensures ChoicesKept(s, SettledFor(s, c, choice))
  {}

  lemma ServeKeepsChoices(rules: Rules, s: State, c: Caller, operation: string, choice: Choice, signals: seq<Signal>)
    ensures ChoicesKept(s, Serve(rules, s, c, operation, choice, signals))
  {}

  lemma StepKeepsChoices(rules: Rules, s: State, step: Step)
    ensures ChoicesKept(s, Apply(rules, s, step))
  {
    if step.Share? && (PermissionFor(s, step.caller) != NotSet || step.choice.Some?) {
      var c, choice := step.caller, Effective(s, step.caller, step.choice);
      var requested := Record(s, RequestCreated, c);
      SettledKeepsChoices(requested, c, choice);
      ServeKeepsChoices(rules, SettledFor(requested, c, choice), c, step.operation, choice, step.signals);
    }
  }

  /** A customer's recorded choice is never changed and never lost. */
  lemma {:induction false} CustomerChoiceIsPermanent(rules: Rules, states: seq<State>, steps: seq<Step>, i: nat,
      j: nat, k: string)
    requires Run(rules, states, steps) && i <= j < |states| && k in states[i].customerConsent
    ensures k in states[j].customerConsent && states[j].customerConsent[k] == states[i].customerConsent[k]
  {
    if i < j {
      CustomerChoiceIsPermanent(rules, states, steps, i, j - 1, k);
      StepKeepsChoices(rules, states[j - 1], steps[j - 1]);
    }
  }

  /** After `dont_allow` no customer-scope signal ever appears, nor was there one before. */
  lemma DeclinedStaysEmpty(rules: Rules, states: seq<State>, steps: seq<Step>, i: nat, j: nat, k: string)
    requires Run(rules, states, steps) && Inv(rules, states[0]) && i < |states| && j < |states|
    requires k in states[i].customerConsent && states[i].customerConsent[k] == DontAllow
    ensures k !in states[j].customerSignals
  {
    RunsKeepInv(rules, states, steps, j);
    if i <= j {
      CustomerChoiceIsPermanent(rules, states, steps, i, j, k);
    } else if k in states[j].customerSignals {
      CustomerChoiceIsPermanent(rules, states, steps, j, i, k);
    }
  }

  /** Ending a session leaves nothing of it; what the customer allowed for good stays. */
  lemma EndingClearsTheSession(rules: Rules, s: State, c: Caller)
    ensures var t := Apply(rules, s, End(c));
            && View(t, c).session == map[]
            && View(t, c).customer == View(s, c).customer
            && CallerSession(c) !in t.sessionConsent && CallerSession(c) !in t.sessionSignals
            && PermissionFor(t, c)
               == (if CustomerKey(c) in s.customerConsent then Decided(s.customerConsent[CustomerKey(c)]) else NotSet)
  {}

  predicate OtherKeys(a: Caller, b: Caller) {
    CustomerKey(a) != CustomerKey(b) && CallerSession(a) != CallerSession(b)
  }

  lemma SettledSparesOthers(s: State, c: Caller, choice: Choice, b: Caller)
    requires OtherKeys(c, b)
    ensures View(SettledFor(s, c, choice), b) == View(s, b)
  {}

  lemma ServeSparesOthers(rules: Rules, s: State, c: Caller, operation: string, choice: Choice, signals: seq<Signal>,
      b: Caller)
    requires OtherKeys(c, b)
    ensures View(Serve(rules, s, c, operation, choice, signals), b) == View(s, b)
  {}

  lemma StepSparesOthers(rules: Rules, s: State, step: Step, b: Caller)
    requires OtherKeys(step.caller, b)
    ensures View(Apply(rules, s, step), b) == View(s, b)
  {
    if step.Share? && (PermissionFor(s, step.caller) != NotSet || step.choice.Some?) {
      var c, choice := step.caller, Effective(s, step.caller, step.choice);
      var requested := Record(s, RequestCreated, c);
      assert View(requested, b) == View(s, b);
      SettledSparesOthers(requested, c, choice, b);
      ServeSparesOthers(rules, SettledFor(requested, c, choice), c, step.operation, choice, step.signals, b);
    }
  }

  /** However many steps callers with other keys take, what a customer is shown does not change. */
  lemma {:induction false} OthersNeverInterfere(rules: Rules, states: seq<State>, steps: seq<Step>, i: nat, b: Caller)
    requires Run(rules, states, steps) && i < |states|
    requires forall j | 0 <= j < i :: OtherKeys(steps[j].caller, b)
    ensures View(states[i], b) == View(states[0], b)
  {
    if i > 0 {
      OthersNeverInterfere(rules, states, steps, i - 1, b);
      StepSparesOthers(rules, states[i - 1], steps[i - 1], b);
    }
  }

  /** Some step of `a`, in a state some run reaches, changes what `b` is shown. */
  ghost predicate Interferes(rules: Rules, a: Caller, b: Caller) {
    exists states, steps, last: Step ::
      Run(rules, states, steps) && states[0] == Start() && last.caller == a && Shows(rules, states[|steps|], last, b)
  }

  predicate Shows(rules: Rules, s: State, step: Step, b: Caller) {
    View(Apply(rules, s, step), b) != View(s, b)
  }

  lemma FirstChoiceShows(rules: Rules, a: Caller, b: Caller, choice: Choice)
    requires if choice == ThisSessionOnly then CallerSession(a) == CallerSession(b)
             else CustomerKey(a) == CustomerKey(b)
    ensures Interferes(rules, a, b)
  {
    var step := Share(a, "", Some(choice), []);
    FirstChoiceIsSeen(rules, Start(), a, choice, b);
    var states: seq<State>, steps: seq<Step> := [Start()], [];
    assert Run(rules, states, steps) && Shows(rules, states[|steps|], step, b);
  }

  lemma FirstChoiceIsSeen(rules: Rules, s: State, a: Caller, choice: Choice, b: Caller)
    requires PermissionFor(s, a) == NotSet && PermissionFor(s, b) == NotSet
    requires if choice == ThisSessionOnly then CallerSession(a) == CallerSession(b)
             else CustomerKey(a) == CustomerKey(b)
    ensures Shows(rules, s, Share(a, "", Some(choice), []), b)
  {
    assert PermissionFor(Apply(rules, s, Share(a, "", Some(choice), [])), b) != NotSet;
  }

  lemma OthersShowNothing(rules: Rules, a: Caller, b: Caller)
    requires OtherKeys(a, b)
    ensures !Interferes(rules, a, b)
  {
    forall s, step: Step | step.caller == a ensures !Shows(rules, s, step, b) {
      StepSparesOthers(rules, s, step, b);
    }
  }

  /** The exact condition: a caller can change what another is shown if and only if they share a key. */
  lemma InterferesIff(rules: Rules, a: Caller, b: Caller)
    ensures Interferes(rules, a, b) <==> CustomerKey(a) == CustomerKey(b) || CallerSession(a) == CallerSession(b)
  {
    if CustomerKey(a) == CustomerKey(b) {
      FirstChoiceShows(rules, a, b, AlwaysAllow);
    } else if CallerSession(a) == CallerSession(b) {
      FirstChoiceShows(rules, a, b, ThisSessionOnly);
    } else {
      OthersShowNothing(rules, a, b);
    }
  }

  /** For callers without a colon in product, account and reference, that means the same customer. */
  lemma OnlyTheSameCustomerInterferes(rules: Rules, a: Caller, b: Caller)
    requires FirmParts(a.product, a.subject) && FirmParts(b.product, b.subject)
    requires ColonFreeRef(a.subject) && ColonFreeRef(b.subject)
    ensures Interferes(rules, a, b) <==> a.product == b.product && a.subject == b.subject
  {
    CustomerKeysMeetIff(a.product, a.subject, b.product, b.subject);
    SessionKeysMeetIff(a.product, a.subject, a.sessionRef, b.product, b.subject, b.sessionRef);
    InterferesIff(rules, a, b);
  }

  /** A session's own grant outlives a `dont_allow` given in another session of the same customer. */
  lemma SessionGrantOutlivesRefusal(rules: Rules, s: State, a: Caller, b: Caller, operation: string,
      signals: seq<Signal>)
    requires CustomerKey(a) == CustomerKey(b) && CallerSession(a) != CallerSession(b)
    requires PermissionFor(s, a) == Decided(ThisSessionOnly) && CallerSession(a) in s.sessionConsent
    requires PermissionFor(s, b) == NotSet
    ensures var t := ShareStep(rules, s, b, operation, Some(DontAllow), signals);
            && PermissionFor(t, b) == Decided(DontAllow)
            && PermissionFor(t, a) == Decided(ThisSessionOnly)
            && View(t, a).session == View(s, a).session
  {}
}
