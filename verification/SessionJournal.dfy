/** The session journal: intents are tried out on a copy, then stored and applied one by one;
    a restore folds the stored events again. */
module SessionJournal {
  import opened Outcomes
  import opened Text
  import opened Interactions

  type Payload = map<string, string>

  datatype Intent = Intent(eventType: string, payload: Payload, eventId: string, ts: string)

  datatype Stored = Stored(session: string, eventId: string, seqNo: nat, ts: string, eventType: string, payload: Payload)

  datatype Reduced<S> = Applied(state: S) | Rejected(reason: string)

  /** The session reducer, as a function: it rejects an event and leaves the state alone, or
      gives the next state. It also looks at the clock, to refuse interactions that have
      expired; that is apart from it, in `ApplyAt`. */
  type Reducer<!S> = (S, Stored) -> Reduced<S>

  /** How dates are read, in seconds. */
  type Dates = string -> Option<int>

  // --------------------------------------------------------------------- log

  predicate IdChar(c: char) {
    'a' <= c <= 'z' || IsDigit(c)
  }

  /** An id of at most 128 letters, digits, dashes and underlines that is no device name. */
  predicate WellFormedId(id: string) {
    && 1 <= |id| <= 128 && IdChar(id[0])
    && (forall i | 0 <= i < |id| :: IdChar(id[i]) || id[i] == '-' || id[i] == '_')
    && !DeviceName(id)
  }

  predicate DeviceName(id: string) {
    id in ["aux", "con", "nul", "prn"]
    || (|id| == 4 && id[..3] in ["com", "lpt"] && '1' <= id[3] <= '9')
  }

  function NormalizeSessionId(id: string): Result<string> {
    var normalized := Lower(Strip(id));
    if normalized == "" then Err("session_id is required")
    else if !WellFormedId(normalized) then Err("session_id is invalid")
    else Ok(normalized)
  }

  type Transcripts = map<string, seq<Stored>>

  function EventsOf(events: Transcripts, id: string): seq<Stored> {
    if id in events then events[id] else []
  }

  class InMemorySessionLog {
    var events: Transcripts

    /** Each session's events are numbered from one without a gap. */
    ghost predicate Valid()
      reads this
    {
      forall id | id in events :: forall i | 0 <= i < |events[id]| ::
        events[id][i].seqNo == i + 1 && events[id][i].session == id
    }

    /** The events under a normalized id. */
    function Of(id: string): seq<Stored>
      reads this
    {
      EventsOf(events, id)
    }

    constructor ()
      ensures Valid() && events == map[]
    {
      events := map[];
    }

    /** Appends one event; `freshId` and `now` fill in what the caller left out, and `broken`
        stands for a log that cannot be written. */
    method AppendEvent(session: string, intent: Intent, freshId: string, now: string, broken: bool)
      returns (stored: Result<Stored>)
      requires Valid()
      modifies this
      ensures Valid()
      ensures stored.Err? <==> NormalizeSessionId(session).Err? || broken
      ensures stored.Err? ==> events == old(events)
      ensures stored.Ok? ==>
                var id := NormalizeSessionId(session).value;
                && stored.value == Stored(id, if intent.eventId != "" then intent.eventId else freshId, |old(Of(id))| + 1,
                                          if intent.ts != "" then intent.ts else now, intent.eventType, intent.payload)
                && events == old(events)[id := old(Of(id)) + [stored.value]]
    {
      var id := NormalizeSessionId(session);
      if id.Err? {
        return Err(id.error);
      }
      if broken {
        return Err("session log is not writable");
      }
      var before := Of(id.value);
      var event := Stored(id.value, if intent.eventId != "" then intent.eventId else freshId, |before| + 1,
                          if intent.ts != "" then intent.ts else now, intent.eventType, intent.payload);
      events := events[id.value := before + [event]];
      return Ok(event);
    }
  }

  // ---------------------------------------------------------------- folding

  /** An event of another session is rejected, whatever it says. */
  function Apply<S>(reduce: Reducer<S>, session: string, state: S, event: Stored): Reduced<S> {
    if event.session != session then Rejected("session_id_mismatch") else reduce(state, event)
  }

  /** The state after all the events, if none is rejected. */
  function Folded<S>(reduce: Reducer<S>, session: string, state: S, events: seq<Stored>): Option<S>
    decreases |events|
  {
    if events == [] then Some(state)
    else
      match Folded(reduce, session, state, events[..|events| - 1])
      case None => None
      case Some(before) =>
        match Apply(reduce, session, before, events[|events| - 1])
        case Applied(after) => Some(after)
        case Rejected(_) => None
  }

  lemma FoldedNext<S>(reduce: Reducer<S>, session: string, state: S, events: seq<Stored>, event: Stored)
    ensures Folded(reduce, session, state, events + [event])
         == match Folded(reduce, session, state, events)
            case None => None
            case Some(before) =>
              match Apply(reduce, session, before, event) case Applied(after) => Some(after) case Rejected(_) => None
  {
    assert (events + [event])[..|events|] == events;
  }

  /** Events stored later fold on from the state that those stored before folded to. */
  lemma {:induction false} FoldedConcat<S>(reduce: Reducer<S>, session: string, state: S, a: seq<Stored>, b: seq<Stored>, middle: S)
    requires Folded(reduce, session, state, a) == Some(middle)
    ensures Folded(reduce, session, state, a + b) == Folded(reduce, session, middle, b)
    decreases |b|
  {
    if b == [] {
      assert a + b == a;
    } else {
      var front, last := b[..|b| - 1], b[|b| - 1];
      FoldedConcat(reduce, session, state, a, front, middle);
      FoldedNext(reduce, session, state, a + front, last);
      FoldedNext(reduce, session, middle, front, last);
      assert b == front + [last] && a + b == (a + front) + [last];
    }
  }

  lemma {:induction false} PrefixFolds<S>(reduce: Reducer<S>, session: string, state: S, events: seq<Stored>, n: nat)
    requires Folded(reduce, session, state, events).Some? && n <= |events|
    ensures Folded(reduce, session, state, events[..n]).Some?
    decreases |events|
  {
    if n == |events| {
      assert events[..n] == events;
    } else {
      var m := |events| - 1;
      PrefixFolds(reduce, session, state, events[..m], n);
      assert events[..m][..n] == events[..n];
    }
  }

  // --------------------------------------------------------------- the clock

  const MAX_AGE := 300

  function Field(payload: Payload, name: string): string {
    if name in payload then Strip(payload[name]) else ""
  }

  /** A question about an interaction is refused when its date cannot be read, or is more
      than 300 seconds old; a question without a date stays good. */
  predicate Stale(dates: Dates, event: Stored, now: int) {
    event.eventType == "pending_interaction"
    && var created := Field(event.payload, "created_at");
       created != "" && (dates(created).None? || now - dates(created).value > MAX_AGE)
  }

  /** The reducer at a moment. */
  function ApplyAt<S>(reduce: Reducer<S>, dates: Dates, session: string, state: S, event: Stored, now: int): Reduced<S> {
    if event.session != session then Rejected("session_id_mismatch")
    else
      match reduce(state, event)
      case Applied(next) => if Stale(dates, event, now) then Rejected("interaction_expired") else Applied(next)
      case Rejected(reason) =>
        Rejected(if Stale(dates, event, now) && reason == "duplicate_pending_interaction_id" then "interaction_expired"
                 else reason)
  }

  /** It takes what it would take without a clock and is not stale. */
  lemma AppliedAt<S(!new)>(reduce: Reducer<S>, dates: Dates, session: string, state: S, event: Stored, now: int)
    ensures ApplyAt(reduce, dates, session, state, event, now)
         == if Stale(dates, event, now) && Apply(reduce, session, state, event).Applied? then Rejected("interaction_expired")
            else if Apply(reduce, session, state, event).Applied? then Apply(reduce, session, state, event)
            else Rejected(ApplyAt(reduce, dates, session, state, event, now).reason)
  {
    hide Stale;
  }

  /** No event is stale when its turn comes. */
  ghost predicate AllFresh(dates: Dates, events: seq<Stored>, clock: nat -> int) {
    forall i | 0 <= i < |events| :: !Stale(dates, events[i], clock(i))
  }

  lemma FreshNext(dates: Dates, events: seq<Stored>, clock: nat -> int, i: nat)
    requires i < |events|
    ensures events[..i + 1] == events[..i] + [events[i]]
    ensures AllFresh(dates, events[..i + 1], clock)
       <==> AllFresh(dates, events[..i], clock) && !Stale(dates, events[i], clock(i))
  {
    hide Stale;
    assert events[..i + 1][i] == events[i];
    assert forall k | 0 <= k < i :: events[..i + 1][k] == events[..i][k];
  }

  // ------------------------------------------------------------ tried out

  /** The event that stands for an intent while it is tried out. */
  function Preflight(session: string, intent: Intent, index: nat): Stored {
    Stored(session, "preflight-" + Decimal(index + 1), index + 1, "1970-01-01T00:00:00Z", intent.eventType, intent.payload)
  }

  function Preflights(session: string, intents: seq<Intent>): (events: seq<Stored>)
    ensures |events| == |intents|
    ensures forall i | 0 <= i < |intents| :: events[i] == Preflight(session, intents[i], i)
  {
    seq(|intents|, i requires 0 <= i < |intents| => Preflight(session, intents[i], i))
  }

  predicate SameContent(a: Stored, b: Stored) {
    a.eventType == b.eventType && a.payload == b.payload
  }

  /** Ids, numbers and times of events do not decide whether the reducer accepts them:
      `alike` relates states that differ in such things only. */
  ghost predicate Insensitive<S(!new)>(reduce: Reducer<S>, alike: (S, S) -> bool) {
    && (forall s: S :: alike(s, s))
    && (forall s: S, t: S, a: Stored, b: Stored | alike(s, t) && SameContent(a, b) ::
          match (reduce(s, a), reduce(t, b))
          case (Applied(s'), Applied(t')) => alike(s', t')
          case (Rejected(_), Rejected(_)) => true
          case _ => false)
  }

  /** Lists of the same contents fold alike: both are accepted, or neither. */
  lemma {:induction false} FoldsAlike<S(!new)>(reduce: Reducer<S>, alike: (S, S) -> bool, session: string, state: S,
                                               a: seq<Stored>, b: seq<Stored>)
    requires Insensitive(reduce, alike)
    requires |a| == |b| && forall i | 0 <= i < |a| :: SameContent(a[i], b[i]) && a[i].session == b[i].session
    ensures Folded(reduce, session, state, a).Some? <==> Folded(reduce, session, state, b).Some?
    ensures Folded(reduce, session, state, a).Some? ==>
              alike(Folded(reduce, session, state, a).value, Folded(reduce, session, state, b).value)
    decreases |a|
  {
    AlikeItself(reduce, alike, state);
    hide Insensitive;
    if a != [] {
      var n := |a| - 1;
      FoldsAlike(reduce, alike, session, state, a[..n], b[..n]);
      var s, t := Folded(reduce, session, state, a[..n]), Folded(reduce, session, state, b[..n]);
      if s.Some? {
        AppliesAlike(reduce, alike, session, s.value, t.value, a[n], b[n]);
      }
    }
  }

  lemma AlikeItself<S(!new)>(reduce: Reducer<S>, alike: (S, S) -> bool, state: S)
    requires Insensitive(reduce, alike)
    ensures alike(state, state)
  {
  }

  lemma AppliesAlike<S(!new)>(reduce: Reducer<S>, alike: (S, S) -> bool, session: string, s: S, t: S, a: Stored, b: Stored)
    requires Insensitive(reduce, alike) && alike(s, t) && SameContent(a, b) && a.session == b.session
    ensures match (Apply(reduce, session, s, a), Apply(reduce, session, t, b))
            case (Applied(s'), Applied(t')) => alike(s', t')
            case (Rejected(_), Rejected(_)) => true
            case _ => false
  {
  }

  /** What was tried out will be accepted when it is stored under the session's own id. */
  lemma TriedOut<S(!new)>(reduce: Reducer<S>, alike: (S, S) -> bool, session: string, state: S, intents: seq<Intent>,
                          stored: seq<Stored>)
    requires Insensitive(reduce, alike) && Folded(reduce, session, state, Preflights(session, intents)).Some?
    requires |stored| <= |intents|
    requires forall i | 0 <= i < |stored| ::
               stored[i].session == session && stored[i].eventType == intents[i].eventType && stored[i].payload == intents[i].payload
    ensures Folded(reduce, session, state, stored).Some?
  {
    PrefixFolds(reduce, session, state, Preflights(session, intents), |stored|);
    FoldsAlike(reduce, alike, session, state, Preflights(session, intents)[..|stored|], stored);
  }

  // ----------------------------------------------------------------- journal

  datatype Outcome =
    | Committed(events: seq<Stored>)
    | Refused(reason: string)
    | LogFailed(reason: string)
    | Mismatched(reason: string)
    | Expired(event: Stored)

  /** The first events stored are those of the first intents. */
  ghost predicate StoredFor(stored: seq<Stored>, intents: seq<Intent>) {
    && |stored| <= |intents|
    && forall i | 0 <= i < |stored| :: stored[i].eventType == intents[i].eventType && stored[i].payload == intents[i].payload
  }

  ghost predicate Grown(id: string, stored: seq<Stored>, before: Transcripts, after: Transcripts) {
    && EventsOf(after, id) == EventsOf(before, id) + stored
    && (forall other | other != id :: EventsOf(after, other) == EventsOf(before, other))
  }

  lemma GrownMore(id: string, stored: seq<Stored>, before: Transcripts, middle: Transcripts, event: Stored)
    requires Grown(id, stored, before, middle)
    ensures Grown(id, stored + [event], before, middle[id := EventsOf(middle, id) + [event]])
  {
    assert EventsOf(before, id) + stored + [event] == EventsOf(before, id) + (stored + [event]);
  }

  lemma StoredForMore(stored: seq<Stored>, intents: seq<Intent>, event: Stored)
    requires StoredFor(stored, intents) && |stored| < |intents|
    requires event.eventType == intents[|stored|].eventType && event.payload == intents[|stored|].payload
    ensures StoredFor(stored + [event], intents)
  {
  }

  /** The log has grown by `logged`, and the session has taken in `taken` of it. */
  ghost predicate Stepped<S(!new)>(reduce: Reducer<S>, id: string, intents: seq<Intent>, logged: seq<Stored>,
                                   taken: seq<Stored>, before: Transcripts, after: Transcripts, session: S, session': S) {
    && StoredFor(logged, intents) && (forall i | 0 <= i < |logged| :: logged[i].session == id)
    && Grown(id, logged, before, after)
    && Folded(reduce, id, session, taken) == Some(session')
  }

  /** What a commit leaves, unless the id was not the log's: the session has taken in what
      was stored, except for an interaction that expired meanwhile. */
  ghost predicate Advanced<S(!new)>(reduce: Reducer<S>, dates: Dates, id: string, intents: seq<Intent>, before: Transcripts,
                                    after: Transcripts, session: S, session': S, outcome: Outcome, clock: nat -> int) {
    exists logged, taken :: Stepped(reduce, id, intents, logged, taken, before, after, session, session')
      && Ends(dates, intents, logged, taken, outcome, clock)
  }

  ghost predicate Ends(dates: Dates, intents: seq<Intent>, logged: seq<Stored>, taken: seq<Stored>, outcome: Outcome,
                       clock: nat -> int)
  {
    match outcome
    case Committed(events) => taken == logged == events && |logged| == |intents|
    case LogFailed(_) => taken == logged && |logged| < |intents|
    case Refused(_) => taken == logged == []
    case Mismatched(_) => false
    case Expired(event) => logged == taken + [event] && Stale(dates, event, clock(|taken|))
  }

  lemma StepsAdvance<S(!new)>(reduce: Reducer<S>, dates: Dates, id: string, intents: seq<Intent>, logged: seq<Stored>,
                              taken: seq<Stored>, before: Transcripts, after: Transcripts, session: S, session': S,
                              outcome: Outcome, clock: nat -> int)
    requires Stepped(reduce, id, intents, logged, taken, before, after, session, session')
    requires Ends(dates, intents, logged, taken, outcome, clock)
    ensures Advanced(reduce, dates, id, intents, before, after, session, session', outcome, clock)
  {
  }

  lemma NothingStored<S(!new)>(reduce: Reducer<S>, id: string, intents: seq<Intent>, before: Transcripts, session: S)
    ensures Stepped(reduce, id, intents, [], [], before, before, session, session)
  {
  }

  /** The journal invariant: if the log folded to the session before, then the longer log
      folds to the session after, but for the last event when that has expired between the
      trial and its storing. */
  lemma StaysConsistent<S(!new)>(reduce: Reducer<S>, dates: Dates, id: string, intents: seq<Intent>, before: Transcripts,
                                 after: Transcripts, session: S, session': S, outcome: Outcome, clock: nat -> int, first: S)
    requires Advanced(reduce, dates, id, intents, before, after, session, session', outcome, clock)
    requires Folded(reduce, id, first, EventsOf(before, id)) == Some(session)
    ensures var events := EventsOf(after, id);
            && (outcome.Expired? ==> |events| > |EventsOf(before, id)| && events[|events| - 1] == outcome.event)
            && Folded(reduce, id, first, if outcome.Expired? then events[..|events| - 1] else events) == Some(session')
  {
    var logged, taken :| Stepped(reduce, id, intents, logged, taken, before, after, session, session')
                         && Ends(dates, intents, logged, taken, outcome, clock);
    StepParts(reduce, id, intents, logged, taken, before, after, session, session');
    EndsParts(dates, intents, logged, taken, outcome, clock);
    hide *;
    FoldedConcat(reduce, id, first, EventsOf(before, id), taken, session);
    if outcome.Expired? {
      LastDropped(EventsOf(before, id), taken, outcome.event);
    }
  }

  lemma StepParts<S(!new)>(reduce: Reducer<S>, id: string, intents: seq<Intent>, logged: seq<Stored>, taken: seq<Stored>,
                           before: Transcripts, after: Transcripts, session: S, session': S)
    requires Stepped(reduce, id, intents, logged, taken, before, after, session, session')
    ensures EventsOf(after, id) == EventsOf(before, id) + logged && Folded(reduce, id, session, taken) == Some(session')
  {
    hide Folded, StoredFor, EventsOf;
  }

  lemma EndsParts(dates: Dates, intents: seq<Intent>, logged: seq<Stored>, taken: seq<Stored>, outcome: Outcome, clock: nat -> int)
    requires Ends(dates, intents, logged, taken, outcome, clock)
    ensures if outcome.Expired? then logged == taken + [outcome.event] else taken == logged
  {
    hide Stale;
  }

  lemma LastDropped(first: seq<Stored>, second: seq<Stored>, last: Stored)
    ensures var all := first + (second + [last]);
            |all| > |first| && all[|all| - 1] == last && all[..|all| - 1] == first + second
  {
  }

  /** One more intent stored under the session's own id is accepted, unless it is stale. */
  lemma StepAccepted<S(!new)>(reduce: Reducer<S>, alike: (S, S) -> bool, id: string, intents: seq<Intent>, stored: seq<Stored>,
                              before: Transcripts, middle: Transcripts, after: Transcripts, session: S, session': S, event: Stored)
    requires Insensitive(reduce, alike) && Folded(reduce, id, session, Preflights(id, intents)).Some?
    requires Stepped(reduce, id, intents, stored, stored, before, middle, session, session') && |stored| < |intents|
    requires event.session == id && event.eventType == intents[|stored|].eventType && event.payload == intents[|stored|].payload
    requires after == middle[id := EventsOf(middle, id) + [event]]
    ensures Apply(reduce, id, session', event).Applied?
    ensures Stepped(reduce, id, intents, stored + [event], stored, before, after, session, session')
    ensures Stepped(reduce, id, intents, stored + [event], stored + [event], before, after, session,
                    Apply(reduce, id, session', event).state)
  {
    hide Grown, EventsOf, Insensitive, Preflights, Folded;
    StoredForMore(stored, intents, event);
    TriedOut(reduce, alike, id, session, intents, stored + [event]);
    FoldedNext(reduce, id, session, stored, event);
    GrownMore(id, stored, before, middle, event);
  }

  /** What decides whether an intent is stale is in the intent. */
  lemma StaleAlike(dates: Dates, a: Stored, b: Stored, now: int)
    requires SameContent(a, b)
    ensures Stale(dates, a, now) <==> Stale(dates, b, now)
  {
  }

  class SessionJournal<S(!new)> {
    const log: InMemorySessionLog
    const reduce: Reducer<S>
    const dates: Dates
    const sessionId: string
    var session: S

    constructor (log: InMemorySessionLog, reduce: Reducer<S>, dates: Dates, sessionId: string, session: S)
      ensures this.log == log && this.reduce == reduce && this.dates == dates
      ensures this.sessionId == sessionId && this.session == session
    {
      this.log, this.reduce, this.dates, this.sessionId, this.session := log, reduce, dates, sessionId, session;
    }

    /** The session is what its log folds to from `first` on. */
    ghost predicate Consistent(first: S)
      reads this, log
    {
      Folded(reduce, sessionId, first, log.Of(sessionId)) == Some(session)
    }

    /** What the trial of the intents accepts. */
    ghost predicate Accepts(intents: seq<Intent>, clock: nat -> int)
      reads this
    {
      Folded(reduce, sessionId, session, Preflights(sessionId, intents)).Some?
      && AllFresh(dates, Preflights(sessionId, intents), clock)
    }

    /** Tries the intents on a copy of the session. */
    method Try(intents: seq<Intent>, clock: nat -> int) returns (reason: Option<string>)
      ensures reason.None? <==> Accepts(intents, clock)
    {
      var staged := session;
      ghost var events := Preflights(sessionId, intents);
      hide Folded, AllFresh, Stale, Preflight;
      TryNothing(events, clock);
      for i := 0 to |intents|
        invariant Folded(reduce, sessionId, session, events[..i]) == Some(staged) && AllFresh(dates, events[..i], clock)
      {
        var event := Preflight(sessionId, intents[i], i);
        TryNext(events, clock, i, staged);
        match ApplyAt(reduce, dates, sessionId, staged, event, clock(i)) {
          case Rejected(why) =>
            Refusal(events, clock, i + 1);
            return Some(why);
          case Applied(next) =>
            staged := next;
        }
      }
      assert events[..|intents|] == events;
      return None;
    }

    lemma TryNothing(events: seq<Stored>, clock: nat -> int)
      ensures Folded(reduce, sessionId, session, events[..0]) == Some(session) && AllFresh(dates, events[..0], clock)
    {
    }

    lemma TryNext(events: seq<Stored>, clock: nat -> int, i: nat, staged: S)
      requires i < |events| && Folded(reduce, sessionId, session, events[..i]) == Some(staged)
      requires AllFresh(dates, events[..i], clock)
      ensures match ApplyAt(reduce, dates, sessionId, staged, events[i], clock(i))
              case Applied(next) =>
                Folded(reduce, sessionId, session, events[..i + 1]) == Some(next) && AllFresh(dates, events[..i + 1], clock)
              case Rejected(_) =>
                !(Folded(reduce, sessionId, session, events[..i + 1]).Some? && AllFresh(dates, events[..i + 1], clock))
    {
      FreshNext(dates, events, clock, i);
      FoldedNext(reduce, sessionId, session, events[..i], events[i]);
      AppliedAt(reduce, dates, sessionId, staged, events[i], clock(i));
      hide Folded, AllFresh, Stale, Apply, ApplyAt;
    }

    lemma Refusal(events: seq<Stored>, clock: nat -> int, n: nat)
      requires n <= |events|
      requires !(Folded(reduce, sessionId, session, events[..n]).Some? && AllFresh(dates, events[..n], clock))
      ensures !(Folded(reduce, sessionId, session, events).Some? && AllFresh(dates, events, clock))
    {
      if Folded(reduce, sessionId, session, events).Some? {
        PrefixFolds(reduce, sessionId, session, events, n);
      }
      assert forall i | 0 <= i < n :: events[..n][i] == events[i];
      hide Folded, Stale;
    }

    /** Some intent is stale when it is stored, and the log takes it and all before. */
    ghost predicate Expires(intents: seq<Intent>, clock: nat -> int, broken: nat -> bool) {
      exists i | 0 <= i < |intents| :: StaleIntent(intents, clock, i) && Unbroken(broken, i)
    }

    ghost predicate StaleIntent(intents: seq<Intent>, clock: nat -> int, i: nat)
      requires i < |intents|
    {
      Stale(dates, Preflight(sessionId, intents[i], i), clock(i))
    }

    /** Commits a batch of intents. A batch with a rejected intent leaves log and session
        alone. Otherwise the intents are stored and applied in order, and when the log breaks
        in between, the session is still what the log folds to. Two things leave the session
        behind the log by one event: an id that the log does not keep as it is, and an
        interaction that expires between the trial and its storing. */
    method Commit(intents: seq<Intent>, freshId: nat -> string, now: nat -> string, broken: nat -> bool,
                  tryClock: nat -> int, clock: nat -> int, ghost alike: (S, S) -> bool)
      returns (outcome: Outcome)
      requires log.Valid() && Insensitive(reduce, alike)
      modifies this`session, log
      ensures log.Valid()
      ensures outcome.Refused? <==> !old(Accepts(intents, tryClock))
      ensures outcome.Mismatched? <==>
                old(Accepts(intents, tryClock)) && intents != [] && !broken(0) && NormalizeSessionId(sessionId).Ok?
                && NormalizeSessionId(sessionId).value != sessionId
      ensures outcome.Expired? <==>
                old(Accepts(intents, tryClock)) && NormalizeSessionId(sessionId) == Ok(sessionId)
                && Expires(intents, clock, broken)
      ensures outcome.Committed? <==>
                old(Accepts(intents, tryClock)) && (intents == [] || NormalizeSessionId(sessionId) == Ok(sessionId))
                && (forall i | 0 <= i < |intents| :: !StaleIntent(intents, clock, i) && !broken(i))
      ensures outcome.Refused? ==> session == old(session) && log.events == old(log.events)
      ensures outcome.Mismatched? ==>
                var id := NormalizeSessionId(sessionId).value;
                session == old(session) && |EventsOf(log.events, id)| == |EventsOf(old(log.events), id)| + 1
      ensures !outcome.Mismatched? ==>
                Advanced(reduce, dates, sessionId, intents, old(log.events), log.events, old(session), session, outcome, clock)
    {
      hide Stepped, Advanced, Insensitive, Folded, NormalizeSessionId, Preflights, StoredFor, Grown, AllFresh, Stale, ApplyAt,
           StaleIntent, Expires;
      var refusal := Try(intents, tryClock);
      var stored: seq<Stored> := [];
      NothingStored(reduce, sessionId, intents, log.events, session);
      if refusal.Some? {
        outcome := Refused(refusal.value);
        StepsAdvance(reduce, dates, sessionId, intents, stored, stored, log.events, log.events, session, session, outcome, clock);
        return;
      }
      for i := 0 to |intents|
        invariant |stored| == i && log.Valid()
        invariant Stepped(reduce, sessionId, intents, stored, stored, old(log.events), log.events, old(session), session)
        invariant i > 0 ==> NormalizeSessionId(sessionId) == Ok(sessionId)
        invariant i == 0 ==> session == old(session) && log.events == old(log.events)
        invariant forall k | 0 <= k < i :: !StaleIntent(intents, clock, k) && !broken(k)
      {
        ghost var middle := log.events;
        var appended := log.AppendEvent(sessionId, intents[i], freshId(i), now(i), broken(i));
        if appended.Err? {
          outcome := LogFailed(appended.error);
          if NormalizeSessionId(sessionId).Ok? {
            NeverExpires(intents, clock, broken, i);
          }
          StepsAdvance(reduce, dates, sessionId, intents, stored, stored, old(log.events), log.events, old(session), session,
                       outcome, clock);
          return;
        }
        var event := appended.value;
        IntentIsStale(intents, clock, i, event);
        AppliedAt(reduce, dates, sessionId, session, event, clock(i));
        if event.session != sessionId {
          return Mismatched("session_id_mismatch");
        }
        StepAccepted(reduce, alike, sessionId, intents, stored, old(log.events), middle, log.events, old(session), session, event);
        match ApplyAt(reduce, dates, sessionId, session, event, clock(i)) {
          case Rejected(why) =>
            outcome := Expired(event);
            DoesExpire(intents, clock, broken, i);
            StepsAdvance(reduce, dates, sessionId, intents, stored + [event], stored, old(log.events), log.events, old(session),
                         session, outcome, clock);
            return;
          case Applied(next) =>
            session := next;
        }
        stored := stored + [event];
      }
      outcome := Committed(stored);
      NeverExpires(intents, clock, broken, |intents|);
      StepsAdvance(reduce, dates, sessionId, intents, stored, stored, old(log.events), log.events, old(session), session, outcome,
                   clock);
    }

    lemma IntentIsStale(intents: seq<Intent>, clock: nat -> int, i: nat, event: Stored)
      requires i < |intents| && event.eventType == intents[i].eventType && event.payload == intents[i].payload
      ensures StaleIntent(intents, clock, i) <==> Stale(dates, event, clock(i))
    {
      StaleAlike(dates, Preflight(sessionId, intents[i], i), event, clock(i));
    }

    lemma NeverExpires(intents: seq<Intent>, clock: nat -> int, broken: nat -> bool, n: nat)
      requires n <= |intents| && forall k | 0 <= k < n :: !StaleIntent(intents, clock, k)
      requires n < |intents| ==> broken(n)
      ensures !Expires(intents, clock, broken)
    {
      hide StaleIntent;
    }

    lemma DoesExpire(intents: seq<Intent>, clock: nat -> int, broken: nat -> bool, i: nat)
      requires i < |intents| && StaleIntent(intents, clock, i) && forall k | 0 <= k <= i :: !broken(k)
      ensures Expires(intents, clock, broken)
    {
      hide StaleIntent;
    }
  }

  predicate Unbroken(broken: nat -> bool, i: nat) {
    forall k | 0 <= k <= i :: !broken(k)
  }

  // ----------------------------------------------------------------- restore

  datatype Restored<S> = Restored(session: S, consumed: nat, skipped: seq<nat>, stopReason: string)

  /** Whether a rejected event of the trusted part may be passed over. */
  predicate Skippable(trusted: nat, index: nat, reason: string) {
    trusted > 0 && index < trusted && reason != "empty_transcript"
  }

  /** The events before `consumed` whose places are not in `skipped`. */
  function Kept(events: seq<Stored>, consumed: nat, skipped: seq<nat>): (kept: seq<Stored>)
    requires consumed <= |events|
    ensures skipped == [] ==> kept == events[..consumed]
  {
    if consumed == 0 then []
    else
      assert events[..consumed] == events[..consumed - 1] + [events[consumed - 1]];
      Kept(events, consumed - 1, skipped) + (if consumed - 1 in skipped then [] else [events[consumed - 1]])
  }

  lemma {:induction false} KeptIgnoresLater(events: seq<Stored>, consumed: nat, skipped: seq<nat>, later: nat)
    requires consumed <= later && consumed <= |events|
    ensures Kept(events, consumed, skipped + [later]) == Kept(events, consumed, skipped)
  {
    if consumed > 0 {
      KeptIgnoresLater(events, consumed - 1, skipped, later);
    }
  }

  /** One event of a restore: a rejected event of the trusted part is passed over, any other
      ends the fold. The clock is read for each event. */
  function FoldStep<S>(reduce: Reducer<S>, dates: Dates, id: string, event: Stored, trusted: nat, clock: nat -> int,
                       before: Restored<S>): Restored<S>
  {
    match ApplyAt(reduce, dates, id, before.session, event, clock(before.consumed))
    case Applied(next) => before.(session := next, consumed := before.consumed + 1)
    case Rejected(reason) =>
      if Skippable(trusted, before.consumed, reason) then
        before.(consumed := before.consumed + 1, skipped := before.skipped + [before.consumed])
      else before.(stopReason := reason)
  }

  /** The fold of a transcript up to event `i`. */
  function Refolded<S>(reduce: Reducer<S>, dates: Dates, id: string, first: S, events: seq<Stored>, i: nat, trusted: nat,
                       clock: nat -> int): (r: Restored<S>)
    requires i <= |events|
    ensures r.consumed <= i
  {
    if i == 0 then Restored(first, 0, [], "")
    else
      var before := Refolded(reduce, dates, id, first, events, i - 1, trusted, clock);
      if before.consumed < i - 1 then before else FoldStep(reduce, dates, id, events[i - 1], trusted, clock, before)
  }

  /** The loop of a restore. */
  method Fold<S(!new)>(reduce: Reducer<S>, dates: Dates, id: string, first: S, events: seq<Stored>, trusted: nat,
                       clock: nat -> int)
    returns (restored: Restored<S>)
    ensures restored == Refolded(reduce, dates, id, first, events, |events|, trusted, clock)
  {
    var session: S, skipped: seq<nat> := first, [];
    for i := 0 to |events|
      invariant Refolded(reduce, dates, id, first, events, i, trusted, clock) == Restored(session, i, skipped, "")
    {
      match ApplyAt(reduce, dates, id, session, events[i], clock(i)) {
        case Applied(next) =>
          session := next;
        case Rejected(reason) =>
          if Skippable(trusted, i, reason) {
            skipped := skipped + [i];
          } else {
            StaysStopped(reduce, dates, id, first, events, i + 1, |events|, trusted, clock);
            return Restored(session, i, skipped, reason);
          }
      }
    }
    return Restored(session, |events|, skipped, "");
  }

  lemma {:induction false} StaysStopped<S(!new)>(reduce: Reducer<S>, dates: Dates, id: string, first: S, events: seq<Stored>,
                                                 i: nat, n: nat, trusted: nat, clock: nat -> int)
    requires i <= n <= |events| && Refolded(reduce, dates, id, first, events, i, trusted, clock).consumed < i
    ensures Refolded(reduce, dates, id, first, events, n, trusted, clock)
         == Refolded(reduce, dates, id, first, events, i, trusted, clock)
    decreases n
  {
    if i < n {
      StaysStopped(reduce, dates, id, first, events, i, n - 1, trusted, clock);
    }
  }

  /** All that was passed over lies in the trusted part, and what was consumed, less that,
      folds to the restored session. */
  ghost predicate Accounted<S(!new)>(reduce: Reducer<S>, id: string, first: S, events: seq<Stored>, trusted: nat, r: Restored<S>)
    requires r.consumed <= |events|
  {
    && (forall k | k in r.skipped :: k < r.consumed && k < trusted)
    && Folded(reduce, id, first, Kept(events, r.consumed, r.skipped)) == Some(r.session)
  }

  lemma StepAccounted<S(!new)>(reduce: Reducer<S>, dates: Dates, id: string, first: S, events: seq<Stored>, trusted: nat,
                               clock: nat -> int, before: Restored<S>)
    requires before.consumed < |events| && Accounted(reduce, id, first, events, trusted, before)
    ensures Accounted(reduce, id, first, events, trusted,
                      FoldStep(reduce, dates, id, events[before.consumed], trusted, clock, before))
  {
    var event := events[before.consumed];
    var r, applied := FoldStep(reduce, dates, id, event, trusted, clock, before), Apply(reduce, id, before.session, event);
    hide *;
    FoldStepCases(reduce, dates, id, event, trusted, clock, before);
    if r == before.(stopReason := r.stopReason) {
      StopAccounted(reduce, id, first, events, trusted, before, r.stopReason);
    } else if applied.Applied? && r == before.(session := applied.state, consumed := before.consumed + 1) {
      TakeAccounted(reduce, id, first, events, trusted, before);
    } else {
      SkipAccounted(reduce, id, first, events, trusted, before);
    }
  }

  lemma StopAccounted<S(!new)>(reduce: Reducer<S>, id: string, first: S, events: seq<Stored>, trusted: nat, before: Restored<S>,
                               reason: string)
    requires before.consumed <= |events| && Accounted(reduce, id, first, events, trusted, before)
    ensures Accounted(reduce, id, first, events, trusted, before.(stopReason := reason))
  {
    hide Folded, Kept;
  }

  lemma TakeAccounted<S(!new)>(reduce: Reducer<S>, id: string, first: S, events: seq<Stored>, trusted: nat, before: Restored<S>)
    requires before.consumed < |events| && Accounted(reduce, id, first, events, trusted, before)
    requires Apply(reduce, id, before.session, events[before.consumed]).Applied?
    ensures Accounted(reduce, id, first, events, trusted,
                      before.(session := Apply(reduce, id, before.session, events[before.consumed]).state,
                              consumed := before.consumed + 1))
  {
    var n := before.consumed;
    KeptNext(events, n, before.skipped);
    FoldedNext(reduce, id, first, Kept(events, n, before.skipped), events[n]);
    hide Folded, Kept, Apply;
  }

  lemma SkipAccounted<S(!new)>(reduce: Reducer<S>, id: string, first: S, events: seq<Stored>, trusted: nat, before: Restored<S>)
    requires before.consumed < |events| && Accounted(reduce, id, first, events, trusted, before)
    requires before.consumed < trusted
    ensures Accounted(reduce, id, first, events, trusted,
                      before.(consumed := before.consumed + 1, skipped := before.skipped + [before.consumed]))
  {
    KeptNext(events, before.consumed, before.skipped);
    hide Folded, Kept;
  }

  /** An event is taken in, passed over or ends the fold. */
  lemma FoldStepCases<S(!new)>(reduce: Reducer<S>, dates: Dates, id: string, event: Stored, trusted: nat, clock: nat -> int,
                               before: Restored<S>)
    ensures var r, applied := FoldStep(reduce, dates, id, event, trusted, clock, before),
                              Apply(reduce, id, before.session, event);
            || (applied.Applied? && r == before.(session := applied.state, consumed := before.consumed + 1))
            || (before.consumed < trusted
                && r == before.(consumed := before.consumed + 1, skipped := before.skipped + [before.consumed]))
            || r == before.(stopReason := r.stopReason)
  {
    AppliedAt(reduce, dates, id, before.session, event, clock(before.consumed));
    hide Apply, ApplyAt, Stale;
  }

  lemma {:induction false} RestoreIsFold<S(!new)>(reduce: Reducer<S>, dates: Dates, id: string, first: S, events: seq<Stored>,
                                                  i: nat, trusted: nat, clock: nat -> int)
    requires i <= |events|
    ensures Accounted(reduce, id, first, events, trusted, Refolded(reduce, dates, id, first, events, i, trusted, clock))
    decreases i
  {
    if i > 0 {
      RestoreIsFold(reduce, dates, id, first, events, i - 1, trusted, clock);
      hide Accounted, FoldStep;
      var before := Refolded(reduce, dates, id, first, events, i - 1, trusted, clock);
      if before.consumed == i - 1 {
        StepAccounted(reduce, dates, id, first, events, trusted, clock, before);
      }
    }
  }

  lemma KeptNext(events: seq<Stored>, n: nat, skipped: seq<nat>)
    requires n < |events| && forall k | k in skipped :: k < n
    ensures Kept(events, n + 1, skipped) == Kept(events, n, skipped) + [events[n]]
    ensures Kept(events, n + 1, skipped + [n]) == Kept(events, n, skipped)
  {
    KeptIgnoresLater(events, n, skipped, n);
    assert n in skipped + [n];
  }

  /** A restore ends early only at an event that the reducer rejects there and then. */
  lemma {:induction false} RestoreStops<S(!new)>(reduce: Reducer<S>, dates: Dates, id: string, first: S, events: seq<Stored>,
                                                 i: nat, trusted: nat, clock: nat -> int)
    requires i <= |events| && Refolded(reduce, dates, id, first, events, i, trusted, clock).consumed < i
    ensures var r := Refolded(reduce, dates, id, first, events, i, trusted, clock);
            && ApplyAt(reduce, dates, id, r.session, events[r.consumed], clock(r.consumed)) == Rejected(r.stopReason)
            && (r.consumed >= trusted || r.stopReason == "empty_transcript")
    decreases i
  {
    if Refolded(reduce, dates, id, first, events, i - 1, trusted, clock).consumed < i - 1 {
      RestoreStops(reduce, dates, id, first, events, i - 1, trusted, clock);
    }
  }

  /** What was passed over was rejected there and then, in the trusted part, and not because the
      transcript was empty. */
  lemma {:induction false} RestoreSkips<S(!new)>(reduce: Reducer<S>, dates: Dates, id: string, first: S, events: seq<Stored>,
                                                 i: nat, trusted: nat, clock: nat -> int, k: nat)
    requires i <= |events| && k in Refolded(reduce, dates, id, first, events, i, trusted, clock).skipped
    ensures k < i && k < trusted
    ensures var before := Refolded(reduce, dates, id, first, events, k, trusted, clock);
            before.consumed == k
            && var applied := ApplyAt(reduce, dates, id, before.session, events[k], clock(k));
               applied.Rejected? && applied.reason != "empty_transcript"
    decreases i
  {
    hide ApplyAt;
    var before := Refolded(reduce, dates, id, first, events, i - 1, trusted, clock);
    if k in before.skipped {
      RestoreSkips(reduce, dates, id, first, events, i - 1, trusted, clock, k);
    }
  }

  /** An event is taken in exactly when the reducer takes it and it is not stale. */
  lemma FoldStepTakes<S(!new)>(reduce: Reducer<S>, dates: Dates, id: string, event: Stored, trusted: nat, clock: nat -> int,
                               before: Restored<S>)
    ensures var r, applied := FoldStep(reduce, dates, id, event, trusted, clock, before),
                              Apply(reduce, id, before.session, event);
            && (applied.Applied? && !Stale(dates, event, clock(before.consumed)) ==>
                  r == before.(session := applied.state, consumed := before.consumed + 1))
            && (!(applied.Applied? && !Stale(dates, event, clock(before.consumed))) ==>
                  r.consumed == before.consumed || r.skipped == before.skipped + [before.consumed])
            && (trusted == 0 ==> r.skipped == before.skipped)
  {
    AppliedAt(reduce, dates, id, before.session, event, clock(before.consumed));
    hide Apply, ApplyAt, Stale;
  }

  /** A log is consumed to its end with nothing passed over if and only if it folds and no
      interaction in it has expired; then the session comes back. Without a trusted part
      nothing is ever passed over. */
  lemma {:induction false} RestoreRebuilds<S(!new)>(reduce: Reducer<S>, dates: Dates, id: string, first: S, events: seq<Stored>,
                                                    i: nat, trusted: nat, clock: nat -> int)
    requires i <= |events|
    ensures var folded := Folded(reduce, id, first, events[..i]);
            var good := folded.Some? && AllFresh(dates, events[..i], clock);
            var r := Refolded(reduce, dates, id, first, events, i, trusted, clock);
            && (good ==> r == Restored(folded.value, i, [], ""))
            && (r.consumed == i && r.skipped == [] ==> good)
            && (trusted == 0 ==> r.skipped == [])
    decreases i
  {
    if i > 0 {
      RestoreRebuilds(reduce, dates, id, first, events, i - 1, trusted, clock);
      FreshNext(dates, events, clock, i - 1);
      FoldedNext(reduce, id, first, events[..i - 1], events[i - 1]);
      var before := Refolded(reduce, dates, id, first, events, i - 1, trusted, clock);
      FoldStepTakes(reduce, dates, id, events[i - 1], trusted, clock, before);
      hide Folded, AllFresh, Stale, ApplyAt, Apply, FoldStep;
    }
  }

  lemma ExpiresHere<S(!new)>(reduce: Reducer<S>, dates: Dates, id: string, event: Stored, k: nat, trusted: nat,
                             clock: nat -> int, before: Restored<S>)
    requires before.consumed == k && before.skipped == [] && before.stopReason == ""
    requires Apply(reduce, id, before.session, event).Applied? && Stale(dates, event, clock(k))
    ensures FoldStep(reduce, dates, id, event, trusted, clock, before)
         == if trusted <= k then Restored(before.session, k, [], "interaction_expired")
            else Restored(before.session, k + 1, [k], "")
  {
    AppliedAt(reduce, dates, id, before.session, event, clock(k));
    hide Apply, ApplyAt, Stale;
  }

  /** The first interaction in a log that folds which has expired: the restore comes to it
      with the session as it was, and ends there, unless it lies in the trusted part; then it
      is passed over. */
  lemma RestoreExpires<S(!new)>(reduce: Reducer<S>, dates: Dates, id: string, first: S, events: seq<Stored>, k: nat,
                                trusted: nat, clock: nat -> int)
    requires k < |events| && Folded(reduce, id, first, events[..k + 1]).Some?
    requires AllFresh(dates, events[..k], clock) && Stale(dates, events[k], clock(k))
    ensures Folded(reduce, id, first, events[..k]).Some?
    ensures var session := Folded(reduce, id, first, events[..k]).value;
            var r := Refolded(reduce, dates, id, first, events, |events|, trusted, clock);
            && (trusted <= k ==> r == Restored(session, k, [], "interaction_expired"))
            && (trusted > k ==> Refolded(reduce, dates, id, first, events, k + 1, trusted, clock)
                                  == Restored(session, k + 1, [k], ""))
  {
    FreshNext(dates, events, clock, k);
    FoldedNext(reduce, id, first, events[..k], events[k]);
    RestoreRebuilds(reduce, dates, id, first, events, k, trusted, clock);
    var before := Refolded(reduce, dates, id, first, events, k, trusted, clock);
    hide Folded, AllFresh, Stale, ApplyAt, Apply, FoldStep;
    ExpiresHere(reduce, dates, id, events[k], k, trusted, clock, before);
    assert Refolded(reduce, dates, id, first, events, k + 1, trusted, clock)
        == FoldStep(reduce, dates, id, events[k], trusted, clock, before);
    if trusted <= k {
      StaysStopped(reduce, dates, id, first, events, k + 1, |events|, trusted, clock);
    }
  }

  /** After a commit that left log and session in step, a restore of the log gives back the
      session if and only if no interaction in the log has expired since, whatever part of
      the log is trusted. */
  lemma CommitThenRestore<S(!new)>(reduce: Reducer<S>, dates: Dates, id: string, intents: seq<Intent>, before: Transcripts,
                                   after: Transcripts, session: S, session': S, outcome: Outcome, commitClock: nat -> int,
                                   first: S, trusted: nat, clock: nat -> int)
    requires Advanced(reduce, dates, id, intents, before, after, session, session', outcome, commitClock) && !outcome.Expired?
    requires Folded(reduce, id, first, EventsOf(before, id)) == Some(session)
    ensures var events := EventsOf(after, id);
            var r := Refolded(reduce, dates, id, first, events, |events|, trusted, clock);
            && (AllFresh(dates, events, clock) ==> r == Restored(session', |events|, [], ""))
            && (!AllFresh(dates, events, clock) ==> r.consumed < |events| || r.skipped != [])
  {
    StaysConsistent(reduce, dates, id, intents, before, after, session, session', outcome, commitClock, first);
    var events := EventsOf(after, id);
    assert events[..|events|] == events;
    hide Advanced, Refolded, Folded, AllFresh, EventsOf;
    RestoreRebuilds(reduce, dates, id, first, events, |events|, trusted, clock);
  }

  /** The first interaction in a log that has expired. */
  lemma {:induction false} FirstStale(dates: Dates, events: seq<Stored>, clock: nat -> int, n: nat) returns (k: nat)
    requires n <= |events| && !AllFresh(dates, events[..n], clock)
    ensures k < n && AllFresh(dates, events[..k], clock) && Stale(dates, events[k], clock(k))
    decreases n
  {
    hide Stale, AllFresh;
    if n == 0 {
      FreshNone(dates, events[..0], clock);
      assert false;
    } else {
      FreshNext(dates, events, clock, n - 1);
      if AllFresh(dates, events[..n - 1], clock) {
        k := n - 1;
      } else {
        k := FirstStale(dates, events, clock, n - 1);
      }
    }
  }

  lemma FreshNone(dates: Dates, events: seq<Stored>, clock: nat -> int)
    ensures events == [] ==> AllFresh(dates, events, clock)
  {
  }

  /** Age only grows, so a log that was not restored whole never is again, and with no part
      trusted a later restore never gets further. */
  lemma NeverComesBack<S(!new)>(reduce: Reducer<S>, dates: Dates, id: string, first: S, events: seq<Stored>, trusted: nat,
                                clock: nat -> int, later: nat -> int)
    requires Folded(reduce, id, first, events).Some? && forall i :: clock(i) <= later(i)
    requires var r := Refolded(reduce, dates, id, first, events, |events|, trusted, clock);
             r.consumed < |events| || r.skipped != []
    ensures var r, r' := Refolded(reduce, dates, id, first, events, |events|, trusted, clock),
                         Refolded(reduce, dates, id, first, events, |events|, trusted, later);
            && (r'.consumed < |events| || r'.skipped != [])
            && (trusted == 0 ==> r'.consumed <= r.consumed)
  {
    assert events[..|events|] == events;
    RestoreRebuilds(reduce, dates, id, first, events, |events|, trusted, clock);
    RestoreRebuilds(reduce, dates, id, first, events, |events|, trusted, later);
    var k := FirstStale(dates, events, clock, |events|);
    assert Stale(dates, events[k], later(k));
    NotFresh(dates, events, later, k);
    var l := FirstStale(dates, events, later, |events|);
    hide Stale, Folded;
    NoneBefore(dates, events, later, l, k);
    StopsAt(reduce, dates, id, first, events, k, trusted, clock);
    StopsAt(reduce, dates, id, first, events, l, trusted, later);
  }

  lemma NotFresh(dates: Dates, events: seq<Stored>, clock: nat -> int, k: nat)
    requires k < |events| && Stale(dates, events[k], clock(k))
    ensures !AllFresh(dates, events, clock)
  {
  }

  lemma NoneBefore(dates: Dates, events: seq<Stored>, clock: nat -> int, n: nat, k: nat)
    requires n <= |events| && k < |events| && AllFresh(dates, events[..n], clock) && Stale(dates, events[k], clock(k))
    ensures n <= k
  {
    hide Stale;
    forall i | 0 <= i < n ensures !Stale(dates, events[i], clock(i)) {
      assert events[..n][i] == events[i];
    }
  }

  lemma StopsAt<S(!new)>(reduce: Reducer<S>, dates: Dates, id: string, first: S, events: seq<Stored>, k: nat, trusted: nat,
                         clock: nat -> int)
    requires k < |events| && Folded(reduce, id, first, events).Some?
    requires AllFresh(dates, events[..k], clock) && Stale(dates, events[k], clock(k))
    ensures trusted == 0 ==> Refolded(reduce, dates, id, first, events, |events|, trusted, clock).consumed == k
  {
    PrefixFolds(reduce, id, first, events, k + 1);
    hide Folded, AllFresh, Stale, Refolded;
    RestoreExpires(reduce, dates, id, first, events, k, trusted, clock);
  }

  // ------------------------------------------- two sessions that come apart

  /** The part of the session reducer that follows interactions. */
  function ReduceInteraction(asked: Asked, event: Stored): Reduced<Asked> {
    if event.eventType == "pending_interaction" then
      match Ask(asked, Field(event.payload, "interaction_id"))
      case Ok(next) => Applied(next)
      case Err(reason) => Rejected(reason)
    else if event.eventType == "pending_resolution" then
      match Answer(asked, Field(event.payload, "interaction_id"))
      case Ok(next) => Applied(next)
      case Err(reason) => Rejected(reason)
    else Applied(asked)
  }

  lemma InteractionsInsensitive()
    ensures Insensitive(ReduceInteraction, (s: Asked, t: Asked) => s == t)
  {
    hide Ask, Answer, Field;
  }

  /** A question can still be answered: it has no date, or one that can be read and is not more
      than five minutes old. */
  predicate Lasts(dates: Dates, event: Stored, now: int) {
    var created := Field(event.payload, "created_at");
    created == "" || (dates(created).Some? && now <= dates(created).value + 300)
  }

  /** A question is taken if and only if it names an interaction that nobody has asked about and
      can still be answered; age is looked at before repetition. */
  lemma QuestionTold(dates: Dates, id: string, asked: Asked, event: Stored, now: int)
    requires event.eventType == "pending_interaction" && event.session == id
    ensures var question := Field(event.payload, "interaction_id");
            ApplyAt(ReduceInteraction, dates, id, asked, event, now)
              == if question == "" || !Lasts(dates, event, now) then Rejected("interaction_expired")
                 else if question in asked.seen then Rejected("duplicate_pending_interaction_id")
                 else Applied(Asked(asked.seen + {question}, Some(question)))
  {
    hide Field;
  }

  /** For how long a log of one question is restored. */
  lemma QuestionLasts(dates: Dates, id: string, event: Stored, clock: nat -> int)
    requires event.eventType == "pending_interaction" && event.session == id
    requires Field(event.payload, "interaction_id") != ""
    ensures Refolded(ReduceInteraction, dates, id, NOBODY, [event], 1, 0, clock).consumed
         == if Lasts(dates, event, clock(0)) then 1 else 0
  {
    QuestionTold(dates, id, NOBODY, event, clock(0));
    hide ApplyAt, Lasts, Field;
    assert Refolded(ReduceInteraction, dates, id, NOBODY, [event], 0, 0, clock) == Restored(NOBODY, 0, [], "");
  }

  /** A question that was asked at second 0. */
  function Question(): Intent {
    Intent("pending_interaction", map["interaction_id" := "p", "created_at" := "0"], "e", "0")
  }

  function AtZero(date: string): Option<int> {
    Some(0)
  }

  lemma QuestionFields(event: Stored)
    requires event.payload == Question().payload
    ensures Field(event.payload, "interaction_id") == "p" && Field(event.payload, "created_at") == "0"
  {
    assert |"interaction_id"| != |"created_at"|;
    assert Strip("p") == "p" && Strip("0") == "0";
  }

  lemma QuestionIsTaken(event: Stored)
    requires event.eventType == "pending_interaction" && event.payload == Question().payload
    ensures ReduceInteraction(NOBODY, event) == Applied(Asked({"p"}, Some("p")))
    ensures Stale(AtZero, event, 301) && !Stale(AtZero, event, 0)
  {
    QuestionFields(event);
    assert NOBODY.seen + {"p"} == {"p"};
    hide Field;
  }

  lemma FoldedSingle(id: string, event: Stored)
    requires event.session == id && event.eventType == "pending_interaction" && event.payload == Question().payload
    ensures Folded(ReduceInteraction, id, NOBODY, [event]) == Some(Asked({"p"}, Some("p")))
    ensures [event][..0] == [] && [event][..1] == [event]
  {
    QuestionIsTaken(event);
    assert [event][..0] == [];
    assert Apply(ReduceInteraction, id, NOBODY, event) == Applied(Asked({"p"}, Some("p")));
    hide ReduceInteraction, Question;
  }

  lemma QuestionIsTried(id: string, clock: nat -> int)
    requires clock(0) == 0
    ensures var events := Preflights(id, [Question()]);
            Folded(ReduceInteraction, id, NOBODY, events).Some? && AllFresh(AtZero, events, clock)
  {
    var events := Preflights(id, [Question()]);
    assert events == [Preflight(id, Question(), 0)];
    QuestionIsTaken(events[0]);
    FoldedSingle(id, events[0]);
    hide Folded, Stale, Question;
  }

  lemma ShortIds()
    ensures NormalizeSessionId("a") == Ok("a") && NormalizeSessionId("A") == Ok("a")
  {
    assert Strip("a") == "a" && Strip("A") == "A";
    assert Lower("a") == "a" && Lower("A") == "a";
    assert !DeviceName("a") by {
      assert forall name | name in ["aux", "con", "nul", "prn"] :: |name| == 3;
    }
    hide Strip, Lower, DeviceName;
  }

  lemma OneQuestion(before: Transcripts, after: Transcripts, session': Asked, outcome: Outcome, clock: nat -> int)
    requires Advanced(ReduceInteraction, AtZero, "a", [Question()], before, after, NOBODY, session', outcome, clock)
    requires outcome.Committed? && EventsOf(before, "a") == []
    ensures EventsOf(after, "a") == outcome.events && |outcome.events| == 1
    ensures StoresQuestion(outcome.events[0])
  {
    hide Folded, Question, Stale, EventsOf;
  }

  lemma QuestionExpires(events: seq<Stored>, restored: Restored<Asked>, clock: nat -> int)
    requires |events| == 1 && StoresQuestion(events[0])
    requires clock(0) == 301 && restored == Refolded(ReduceInteraction, AtZero, "a", NOBODY, events, 1, 0, clock)
    ensures restored == Restored(NOBODY, 0, [], "interaction_expired")
  {
    var event := events[0];
    assert events == [event];
    FoldedSingle("a", event);
    QuestionIsTaken(event);
    assert Folded(ReduceInteraction, "a", NOBODY, []) == Some(NOBODY);
    hide Folded, Stale, Refolded, ReduceInteraction;
    RestoreExpires(ReduceInteraction, AtZero, "a", NOBODY, events, 0, 0, clock);
  }

  lemma NothingLogged(events: Transcripts)
    requires events == map[]
    ensures EventsOf(events, "a") == []
  {
  }

  lemma QuestionAccepted(journal: SessionJournal<Asked>, clock: nat -> int)
    requires journal.reduce == ReduceInteraction && journal.dates == AtZero && journal.session == NOBODY && clock(0) == 0
    ensures journal.Accepts([Question()], clock)
    ensures forall i | 0 <= i < 1 :: !journal.StaleIntent([Question()], clock, i)
    ensures forall broken :: !journal.Expires([Question()], clock, broken)
  {
    QuestionIsTried(journal.sessionId, clock);
    QuestionIsTaken(Preflight(journal.sessionId, Question(), 0));
    hide Folded, AllFresh, Stale, Preflights, Question, ReduceInteraction, Unbroken;
  }

  /** Commits the question at second 0 to a new session. */
  method CommitQuestion(id: string) returns (outcome: Outcome, session: Asked, stored: seq<Stored>)
    requires NormalizeSessionId(id) == Ok("a")
    ensures if id == "a" then outcome.Committed? && stored == outcome.events && |stored| == 1 && StoresQuestion(stored[0])
            else outcome.Mismatched? && session == NOBODY && |stored| == 1
  {
    InteractionsInsensitive();
    hide Folded, AllFresh, Stale, Preflights, NormalizeSessionId, Advanced, Insensitive, Question, Preflight, ReduceInteraction,
         EventsOf, StoresQuestion;
    var log := new InMemorySessionLog();
    NothingLogged(log.events);
    var journal := new SessionJournal(log, ReduceInteraction, AtZero, id, NOBODY);
    QuestionAccepted(journal, _ => 0);
    hide *;
    outcome := journal.Commit([Question()], _ => "e", _ => "0", _ => false, _ => 0, _ => 0, (s, t) => s == t);
    if id == "a" {
      OneQuestion(map[], log.events, journal.session, outcome, _ => 0);
    }
    session, stored := journal.session, log.Of("a");
    OfIs(log, "a");
  }

  lemma OfIs(log: InMemorySessionLog, id: string)
    ensures log.Of(id) == EventsOf(log.events, id)
  {
  }

  predicate StoresQuestion(event: Stored) {
    event.session == "a" && event.eventType == Question().eventType && event.payload == Question().payload
  }

  /** A session is committed without a fault, and 301 seconds later a restore under the
      default policy, which trusts no event, ends before its only event. */
  method ExpiredSession() returns (outcome: Outcome, restored: Restored<Asked>)
    ensures outcome.Committed? && |outcome.events| == 1
    ensures restored == Restored(NOBODY, 0, [], "interaction_expired")
  {
    ShortIds();
    hide *;
    var committed, session, stored := CommitQuestion("a");
    outcome := committed;
    restored := Fold(ReduceInteraction, AtZero, "a", NOBODY, stored, 0, _ => 301);
    QuestionExpires(stored, restored, _ => 301);
  }

  /** A session with a capital letter in its id falls out of step at its first event. */
  method CapitalSession() returns (outcome: Outcome, session: Asked, stored: seq<Stored>)
    ensures outcome.Mismatched? && session == NOBODY && |stored| == 1
  {
    ShortIds();
    hide *;
    outcome, session, stored := CommitQuestion("A");
  }
}
