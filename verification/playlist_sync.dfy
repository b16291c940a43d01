/** The playlist update job of PlaylistManager (`requestUpdatePlaylist`,
    `setLastUpdate` and `loadPlaylist`) as a sequential state machine.

    The coroutine, the HTTP client, the clock, the preference store and the
    playlist file are outside the model: the clock readings and the outcome
    of each download arrive as event parameters, and the file is the
    `stored` text. A step stands for one stretch of the job between two
    observations of the outside world. */
module PlaylistSync {
  import opened Wrappers
  import opened PlaylistParser

  /** CACHE_EXPIRATION_MS: a stored playlist is stale after 24 hours. */
  const CacheExpirationMs: int := 24 * 60 * 60 * 1000
  /** UPDATE_RETRY_DELAY: pause between a failed attempt and the next one. */
  const UpdateRetryDelayMs: int := 10 * 1000

  /** The job's `needUpdate` test; strictly more than 24 hours. */
  predicate NeedUpdate(now: int, lastUpdate: int) {
    now - lastUpdate > CacheExpirationMs
  }

  /** Where the update job is. `Idle` means no job, or the last one has
      completed, so a request launches a new job. */
  datatype Phase =
    | Idle
    | Checking      // at the head of the retry loop, about to test staleness
    | Fetching      // an attempt (download, parse, compare, write) is under way
    | AfterFailure  // an attempt failed; about to decide whether to pause

  datatype State = State(
    phase: Phase,
    lastUpdate: int,         // the KEY_LAST_UPDATE preference, epoch milliseconds
    stored: Option<string>,  // the playlist file's text; None when it cannot be read
    times: nat)              // attempts made by the current job

  /** How an attempt ended.
      - `Failed`: an exception before the file was touched (the download
        or the response code).
      - `Fetched(text)`: the attempt completed; `text` is the playlist text
        the parser rendered from the response body (see `Downloaded`).
      - `ThrewAfterWrite(written, announced)`: the text differed from the
        stored one, the file was written, and then an exception was thrown.
        The file now holds `written`: the new text, or a truncated part of
        it when `writeText` itself failed. `announced` says whether
        `onPlaylistChange` had been invoked before the exception (it throws
        itself) or not (`createPlaylistFromJson` or the write threw). The
        callback runs only after a completed write, so `announced` implies
        that `written` is the whole new text; the datatype does not enforce
        this. */
  datatype Outcome =
    | Failed
    | Fetched(text: string)
    | ThrewAfterWrite(written: string, announced: bool)

  datatype Event =
    | Request                               // requestUpdatePlaylist()
    | LoopCheck(now: int)                   // the loop condition, read at clock time now
    | AttemptDone(now: int, outcome: Outcome)  // an attempt ends at clock time now
    | RetryCheck(now: int)                  // the post-failure staleness test at time now
    | SetLastUpdate(time: int)              // setLastUpdate(time) from elsewhere

  /** What the outside world observes. */
  datatype Notice =
    | UpdatingChanged(updating: bool)  // onUpdatePlaylistJobStateChange
    | AttemptStarted(times: nat)       // "Updating playlist... times=N"
    | PlaylistChanged(text: string)    // the file was written and onPlaylistChange fired
    | PlaylistWritten(text: string)    // the file was written, with no onPlaylistChange
    | Delayed(ms: int)                 // delay(UPDATE_RETRY_DELAY)

  datatype Transition = Transition(state: State, notices: seq<Notice>)

  /** The outcome of a successful download of `body` whose attempt runs to
      the end: the parser's channels, listed in the HashMap's iteration
      order `order` and rendered by the JSON writer `render`. The order
      depends on the map's hashing and insertion history, which is not
      modelled, so it is chosen by the caller. */
  function Downloaded(body: string, order: seq<string>, render: seq<Channel> -> string): (o: Outcome)
    requires IsIterationOrder(Parse(body), order)
    ensures o.Fetched?
    ensures o.text == render(Listing(Parse(body), order))
    ensures exists cs | IsListingOf(Parse(body), cs) :: o.text == render(cs)
  {
    ParsedListing(body, order);
    Fetched(render(Listing(Parse(body), order)))
  }

  /** The job-state signals among some notices, in order. */
  function Signals(ns: seq<Notice>): seq<bool>
    decreases |ns|
  {
    if |ns| == 0 then []
    else
      var last := ns[|ns| - 1];
      Signals(ns[..|ns| - 1]) + (if last.UpdatingChanged? then [last.updating] else [])
  }

  /** The number of attempts announced among some notices. */
  function Attempts(ns: seq<Notice>): nat
    decreases |ns|
  {
    if |ns| == 0 then 0
    else Attempts(ns[..|ns| - 1]) + (if ns[|ns| - 1].AttemptStarted? then 1 else 0)
  }

  /** The text last written to the file according to some notices, or `init`. */
  function LastWritten(ns: seq<Notice>, init: Option<string>): Option<string>
    decreases |ns|
  {
    if |ns| == 0 then init
    else if ns[|ns| - 1].PlaylistChanged? || ns[|ns| - 1].PlaylistWritten? then Some(ns[|ns| - 1].text)
    else LastWritten(ns[..|ns| - 1], init)
  }

  /** One step of the job. Events that cannot happen in the current phase
      (a loop check with no job running, say) change nothing. */
  function Step(s: State, e: Event): Transition
  {
    match e
    case Request =>
      if s.phase != Idle then Transition(s, [])
      else Transition(s.(phase := Checking, times := 0), [UpdatingChanged(true)])
    case LoopCheck(now) =>
      if s.phase != Checking then Transition(s, [])
      else if NeedUpdate(now, s.lastUpdate) then
        Transition(s.(phase := Fetching, times := s.times + 1), [AttemptStarted(s.times + 1)])
      else Transition(s.(phase := Idle), [UpdatingChanged(false)])
    case AttemptDone(now, outcome) =>
      if s.phase != Fetching then Transition(s, [])
      else if outcome.Failed? then Transition(s.(phase := AfterFailure), [])
      else if outcome.ThrewAfterWrite? then
        // the file was changed but lastUpdate was not, so the job retries
        var n := if outcome.announced then PlaylistChanged(outcome.written)
                 else PlaylistWritten(outcome.written);
        Transition(s.(phase := AfterFailure, stored := Some(outcome.written)), [n])
      else if Some(outcome.text) != s.stored then
        // the file is written and onPlaylistChange fires only on a change
        Transition(s.(phase := Idle, lastUpdate := now, stored := Some(outcome.text)),
                   [PlaylistChanged(outcome.text), UpdatingChanged(false)])
      else
        Transition(s.(phase := Idle, lastUpdate := now), [UpdatingChanged(false)])
    case RetryCheck(now) =>
      if s.phase != AfterFailure then Transition(s, [])
      else if NeedUpdate(now, s.lastUpdate) then
        Transition(s.(phase := Checking), [Delayed(UpdateRetryDelayMs)])
      else Transition(s.(phase := Checking), [])
    case SetLastUpdate(time) =>
      Transition(s.(lastUpdate := time), [])
  }

  /** What every step guarantees. */
  lemma StepFacts(s: State, e: Event)
    // The job-state callback fires exactly on the edges of "a job is in flight".
    ensures Signals(Step(s, e).notices) ==
      if s.phase == Idle && Step(s, e).state.phase != Idle then [true]
      else if s.phase != Idle && Step(s, e).state.phase == Idle then [false]
      else []
    // An attempt is announced only from the loop head, and only when stale.
    ensures Attempts(Step(s, e).notices) > 0 ==>
      e.LoopCheck? && s.phase == Checking && NeedUpdate(e.now, s.lastUpdate)
    // The stored text is the last one written, and only an attempt that
    // got as far as writing changes it.
    ensures LastWritten(Step(s, e).notices, s.stored) == Step(s, e).state.stored
    ensures Step(s, e).state.stored != s.stored ==> e.AttemptDone? && !e.outcome.Failed?
    // lastUpdate moves only by setLastUpdate or a successful attempt.
    ensures Step(s, e).state.lastUpdate != s.lastUpdate ==>
      e.SetLastUpdate? || (e.AttemptDone? && e.outcome.Fetched? && Step(s, e).state.lastUpdate == e.now)
  {
    var ns := Step(s, e).notices;
    if |ns| == 2 {
      assert ns[..1] == [ns[0]];
      assert ns[..1][..0] == [];
    } else if |ns| == 1 {
      assert ns[..0] == [];
    }
  }

  /** The signals alternate, starting with `first`. */
  predicate Alternating(sig: seq<bool>, first: bool) {
    forall k | 0 <= k < |sig| :: sig[k] == ((k % 2 == 0) == first)
  }

  lemma {:induction false} SignalsAppend(a: seq<Notice>, b: seq<Notice>)
    ensures Signals(a + b) == Signals(a) + Signals(b)
    decreases |b|
  {
    if |b| > 0 {
      assert (a + b)[..|a + b| - 1] == a + b[..|b| - 1];
      assert (a + b)[|a + b| - 1] == b[|b| - 1];
      SignalsAppend(a, b[..|b| - 1]);
    } else {
      assert a + b == a;
    }
  }

  lemma {:induction false} AttemptsAppend(a: seq<Notice>, b: seq<Notice>)
    ensures Attempts(a + b) == Attempts(a) + Attempts(b)
    decreases |b|
  {
    if |b| > 0 {
      assert (a + b)[..|a + b| - 1] == a + b[..|b| - 1];
      assert (a + b)[|a + b| - 1] == b[|b| - 1];
      AttemptsAppend(a, b[..|b| - 1]);
    } else {
      assert a + b == a;
    }
  }

  lemma {:induction false} LastWrittenAppend(a: seq<Notice>, b: seq<Notice>, init: Option<string>)
    ensures LastWritten(a + b, init) == LastWritten(b, LastWritten(a, init))
    decreases |b|
  {
    if |b| > 0 {
      assert (a + b)[..|a + b| - 1] == a + b[..|b| - 1];
      assert (a + b)[|a + b| - 1] == b[|b| - 1];
      LastWrittenAppend(a, b[..|b| - 1], init);
    } else {
      assert a + b == a;
    }
  }

  /** Appending the signal of one step keeps the signals alternating and
      their parity in step with the phase. */
  lemma AlternatingExtend(sig: seq<bool>, more: seq<bool>, first: bool, idleBefore: bool, idleAfter: bool)
    requires Alternating(sig, first)
    requires idleBefore == ((|sig| % 2 == 0) == first)
    requires more == if idleBefore && !idleAfter then [true]
                     else if !idleBefore && idleAfter then [false] else []
    ensures Alternating(sig + more, first)
    ensures idleAfter == ((|sig + more| % 2 == 0) == first)
  {
    var all := sig + more;
    forall k | 0 <= k < |all| ensures all[k] == ((k % 2 == 0) == first) {
      if k < |sig| {
        assert all[k] == sig[k];
      }
    }
  }

  /** Runs the events in order from s, collecting the notices. */
  function Run(s: State, es: seq<Event>): Transition
    decreases |es|
  {
    if |es| == 0 then Transition(s, [])
    else
      var p := Run(s, es[..|es| - 1]);
      var q := Step(p.state, es[|es| - 1]);
      Transition(q.state, p.notices + q.notices)
  }

  /** Over any run: the job-state signals alternate, starting with `true`
      when no job was in flight, so two jobs never overlap; a job is in
      flight at the end exactly when the signals say so; and the stored
      text is the last one announced as changed. */
  lemma {:induction false} RunInvariants(s: State, es: seq<Event>)
    ensures Alternating(Signals(Run(s, es).notices), s.phase == Idle)
    ensures (Run(s, es).state.phase == Idle) ==
            ((|Signals(Run(s, es).notices)| % 2 == 0) == (s.phase == Idle))
    ensures Run(s, es).state.stored == LastWritten(Run(s, es).notices, s.stored)
    decreases |es|
  {
    if |es| > 0 {
      var p := Run(s, es[..|es| - 1]);
      var q := Step(p.state, es[|es| - 1]);
      RunInvariants(s, es[..|es| - 1]);
      StepFacts(p.state, es[|es| - 1]);
      SignalsAppend(p.notices, q.notices);
      LastWrittenAppend(p.notices, q.notices, s.stored);
      AlternatingExtend(Signals(p.notices), Signals(q.notices), s.phase == Idle,
                        p.state.phase == Idle, q.state.phase == Idle);
    }
  }

  /** Running two event sequences one after the other is running their
      concatenation. */
  lemma {:induction false} RunAppend(s: State, a: seq<Event>, b: seq<Event>)
    ensures Run(s, a + b).state == Run(Run(s, a).state, b).state
    ensures Run(s, a + b).notices == Run(s, a).notices + Run(Run(s, a).state, b).notices
    decreases |b|
  {
    var r := Run(s, a).state;
    if |b| == 0 {
      assert a + b == a;
    } else {
      var es := a + b;
      var b' := b[..|b| - 1];
      assert es[..|es| - 1] == a + b';
      assert es[|es| - 1] == b[|b| - 1];
      RunAppend(s, a, b');
      var q := Step(Run(r, b').state, b[|b| - 1]);
      assert Run(s, es).notices == Run(s, a + b').notices + q.notices;
      assert Run(r, b).notices == Run(r, b').notices + q.notices;
    }
  }

  // ---------------------------------------------------------------------
  // The rules of requestUpdatePlaylist, one at a time.

  /** Single flight: a request while a job is in flight is ignored. */
  lemma RequestWhileBusyIgnored(s: State)
    requires s.phase != Idle
    ensures Step(s, Request) == Transition(s, [])
  {
  }

  /** The staleness test is strict: exactly 24 hours after the last update
      the playlist is still fresh, one millisecond later it is stale. */
  lemma StalenessIsStrict(lastUpdate: int)
    ensures !NeedUpdate(lastUpdate + 86_400_000, lastUpdate)
    ensures NeedUpdate(lastUpdate + 86_400_001, lastUpdate)
  {
  }

  /** Running two events is stepping twice. */
  lemma RunTwo(s: State, e1: Event, e2: Event)
    ensures Run(s, [e1, e2]) ==
      Transition(Step(Step(s, e1).state, e2).state,
                 Step(s, e1).notices + Step(Step(s, e1).state, e2).notices)
  {
    assert [e1, e2][..1] == [e1];
    assert [e1][..0] == [];
    assert Run(s, [e1]) == Transition(Step(s, e1).state, [] + Step(s, e1).notices);
    assert [] + Step(s, e1).notices == Step(s, e1).notices;
  }

  /** Running one event is one step. */
  lemma RunOne(s: State, e: Event)
    ensures Run(s, [e]) == Step(s, e)
  {
    assert [e][..0] == [];
    assert [] + Step(s, e).notices == Step(s, e).notices;
  }

  /** `setLastUpdate(0, true)` (and `setPlaylistUrl`, which does the same)
      forces a refresh: from an idle state, once the clock is past the first
      24 hours of the epoch, the job it starts makes an attempt whatever
      the previous lastUpdate was. */
  lemma ForcedRefresh(s: State, now: int)
    requires s.phase == Idle && now > CacheExpirationMs
    ensures Run(s, [SetLastUpdate(0), Request, LoopCheck(now)]).state.phase == Fetching
  {
    RunOne(s, SetLastUpdate(0));
    RunAppend(s, [SetLastUpdate(0)], [Request, LoopCheck(now)]);
    assert [SetLastUpdate(0)] + [Request, LoopCheck(now)] == [SetLastUpdate(0), Request, LoopCheck(now)];
    StaleRequest(s.(lastUpdate := 0), now);
  }

  /** A request while the playlist is fresh still starts a job, which
      signals `true` and then `false` and makes no attempt. */
  lemma FreshRequest(s: State, now: int)
    requires s.phase == Idle && !NeedUpdate(now, s.lastUpdate)
    ensures Run(s, [Request, LoopCheck(now)]) ==
      Transition(s.(times := 0), [UpdatingChanged(true), UpdatingChanged(false)])
  {
    RunTwo(s, Request, LoopCheck(now));
  }

  /** A request while the playlist is stale starts a job that makes its
      first attempt. */
  lemma StaleRequest(s: State, now: int)
    requires s.phase == Idle && NeedUpdate(now, s.lastUpdate)
    ensures Run(s, [Request, LoopCheck(now)]) ==
      Transition(s.(phase := Fetching, times := 1), [UpdatingChanged(true), AttemptStarted(1)])
  {
    RunTwo(s, Request, LoopCheck(now));
  }

  /** A completed attempt ends the job and records its time; the file is
      written and the change announced exactly when the new text differs
      from the stored one. */
  lemma SuccessfulAttempt(s: State, now: int, text: string)
    requires s.phase == Fetching
    ensures var t := Step(s, AttemptDone(now, Fetched(text)));
      && t.state == s.(phase := Idle, lastUpdate := now, stored := Some(text))
      && (PlaylistChanged(text) in t.notices <==> Some(text) != s.stored)
      && (forall x :: PlaylistChanged(x) in t.notices ==> x == text)
      && (forall x :: PlaylistWritten(x) !in t.notices)
      && t.notices[|t.notices| - 1] == UpdatingChanged(false)
  {
  }

  /** Change suppression across downloads: a body that parses to the same
      catalog as the stored rendering, listed in the same iteration order,
      ends the job without rewriting the file or announcing a change, even
      when the raw bodies differ. */
  lemma SameListingNotAnnounced(s: State, now: int, body: string, body': string,
                                order: seq<string>, render: seq<Channel> -> string)
    requires IsIterationOrder(Parse(body), order)
    requires s.phase == Fetching && s.stored == Some(Downloaded(body, order, render).text)
    requires Parse(body') == Parse(body)
    ensures Step(s, AttemptDone(now, Downloaded(body', order, render))) ==
      Transition(s.(phase := Idle, lastUpdate := now), [UpdatingChanged(false)])
  {
  }

  /** Suppression compares rendered text, not catalogs: when the same
      catalog is listed in another iteration order and renders differently,
      the file is rewritten and the change announced again. */
  lemma ReorderedListingAnnounced(s: State, now: int, body: string, order: seq<string>,
                                  order': seq<string>, render: seq<Channel> -> string)
    requires IsIterationOrder(Parse(body), order) && IsIterationOrder(Parse(body), order')
    requires s.phase == Fetching && s.stored == Some(Downloaded(body, order, render).text)
    requires Downloaded(body, order', render).text != Downloaded(body, order, render).text
    ensures PlaylistChanged(Downloaded(body, order', render).text) in
      Step(s, AttemptDone(now, Downloaded(body, order', render))).notices
  {
    var o := Downloaded(body, order', render);
    assert Some(o.text) != s.stored;
    SuccessfulAttempt(s, now, o.text);
  }

  /** The premise of ReorderedListingAnnounced can be met: a two-channel
      catalog has two iteration orders, and a writer that lists channels in
      the order given renders them differently. */
  lemma OrderChangesRendering()
    ensures var c := map["A" := Channel("A", DefaultGroup, ["u"]), "Q" := Channel("Q", DefaultGroup, ["v"])];
      var first := (cs: seq<Channel>) => if |cs| == 0 then "" else cs[0].name;
      && IsIterationOrder(c, ["A", "Q"]) && IsIterationOrder(c, ["Q", "A"])
      && first(Listing(c, ["A", "Q"])) != first(Listing(c, ["Q", "A"]))
  {
    var c := map["A" := Channel("A", DefaultGroup, ["u"]), "Q" := Channel("Q", DefaultGroup, ["v"])];
    ListingInOrder(c, ["A", "Q"]);
    ListingInOrder(c, ["Q", "A"]);
  }

  /** An attempt that writes the new text and then throws (say in
      `createPlaylistFromJson`) loses the announcement for good: the retry
      downloads the same text, finds it equal to the file, and ends the job
      without telling the listener. */
  lemma WriteThenThrowNeverAnnounced(s: State, t1: int, t2: int, t3: int, t4: int, text: string)
    requires s.phase == Fetching && Some(text) != s.stored
    requires NeedUpdate(t2, s.lastUpdate) && NeedUpdate(t3, s.lastUpdate)
    ensures var r := Run(s, [AttemptDone(t1, ThrewAfterWrite(text, false)), RetryCheck(t2)] +
                            [LoopCheck(t3), AttemptDone(t4, Fetched(text))]);
      && r.state == s.(phase := Idle, lastUpdate := t4, stored := Some(text), times := s.times + 1)
      && r.notices == [PlaylistWritten(text), Delayed(UpdateRetryDelayMs),
                       AttemptStarted(s.times + 1), UpdatingChanged(false)]
  {
    var a := [AttemptDone(t1, ThrewAfterWrite(text, false)), RetryCheck(t2)];
    var b := [LoopCheck(t3), AttemptDone(t4, Fetched(text))];
    RunTwo(s, a[0], a[1]);
    var r := Run(s, a);
    assert r.state == s.(phase := Checking, stored := Some(text));
    RunTwo(r.state, b[0], b[1]);
    RunAppend(s, a, b);
  }

  /** A `writeText` that truncates the file and then fails leaves only a
      part of the new text behind. The retry finds the file different from
      the download, so it writes the text again and announces it. */
  lemma TruncatedWriteAnnouncedOnRetry(s: State, t1: int, t2: int, t3: int, t4: int,
                                       partial: string, text: string)
    requires s.phase == Fetching && partial != text
    requires NeedUpdate(t2, s.lastUpdate) && NeedUpdate(t3, s.lastUpdate)
    ensures var r := Run(s, [AttemptDone(t1, ThrewAfterWrite(partial, false)), RetryCheck(t2)] +
                            [LoopCheck(t3), AttemptDone(t4, Fetched(text))]);
      && r.state == s.(phase := Idle, lastUpdate := t4, stored := Some(text), times := s.times + 1)
      && r.notices == [PlaylistWritten(partial), Delayed(UpdateRetryDelayMs),
                       AttemptStarted(s.times + 1), PlaylistChanged(text), UpdatingChanged(false)]
  {
    var a := [AttemptDone(t1, ThrewAfterWrite(partial, false)), RetryCheck(t2)];
    var b := [LoopCheck(t3), AttemptDone(t4, Fetched(text))];
    RunTwo(s, a[0], a[1]);
    var r := Run(s, a);
    assert r.state == s.(phase := Checking, stored := Some(partial));
    RunTwo(r.state, b[0], b[1]);
    RunAppend(s, a, b);
  }

  /** After a failed attempt the job pauses for the retry delay only while
      the playlist is still stale, then goes back to the loop head; nothing
      else changes. */
  lemma FailedAttempt(s: State, now: int, later: int)
    requires s.phase == Fetching
    ensures Run(s, [AttemptDone(now, Failed), RetryCheck(later)]) ==
      Transition(s.(phase := Checking),
                 if NeedUpdate(later, s.lastUpdate) then [Delayed(UpdateRetryDelayMs)] else [])
  {
    RunTwo(s, AttemptDone(now, Failed), RetryCheck(later));
    var ns := Step(s.(phase := AfterFailure), RetryCheck(later)).notices;
    assert [] + ns == ns;
  }

  /** When the playlist stops being stale after a failure (another job or a
      setLastUpdate refreshed it), the job ends without another attempt and
      without recording a success. */
  lemma AbandonWhenFresh(s: State, now: int, later: int)
    requires s.phase == AfterFailure
    requires !NeedUpdate(now, s.lastUpdate) && !NeedUpdate(later, s.lastUpdate)
    ensures Run(s, [RetryCheck(now), LoopCheck(later)]) ==
      Transition(s.(phase := Idle), [UpdatingChanged(false)])
  {
    RunTwo(s, RetryCheck(now), LoopCheck(later));
    assert [] + [UpdatingChanged(false)] == [UpdatingChanged(false)];
  }

  /** While the playlist stays fresh and nobody resets lastUpdate, no
      attempt is ever made, whatever requests and checks arrive. */
  lemma {:induction false} NoAttemptWhileFresh(s: State, es: seq<Event>)
    requires s.phase == Idle || s.phase == Checking
    requires forall k | 0 <= k < |es| :: !es[k].SetLastUpdate?
    requires forall k | 0 <= k < |es| :: es[k].LoopCheck? ==> !NeedUpdate(es[k].now, s.lastUpdate)
    ensures Attempts(Run(s, es).notices) == 0
    ensures Run(s, es).state.phase == Idle || Run(s, es).state.phase == Checking
    ensures Run(s, es).state.lastUpdate == s.lastUpdate
    ensures Run(s, es).state.stored == s.stored
    decreases |es|
  {
    if |es| > 0 {
      var es' := es[..|es| - 1];
      var p := Run(s, es');
      var e := es[|es| - 1];
      assert forall k | 0 <= k < |es'| :: es'[k] == es[k];
      NoAttemptWhileFresh(s, es');
      var q := Step(p.state, e);
      assert Run(s, es) == Transition(q.state, p.notices + q.notices);
      StepFacts(p.state, e);
      assert !e.SetLastUpdate? && (e.LoopCheck? ==> !NeedUpdate(e.now, p.state.lastUpdate));
      AttemptsAppend(p.notices, q.notices);
    }
  }

  /** The job started by a stale request that succeeds: one attempt, and it
      ends idle with lastUpdate at the attempt's time. */
  lemma StaleJobSucceeds(s: State, t1: int, t2: int, text: string)
    requires s.phase == Checking && NeedUpdate(t1, s.lastUpdate)
    ensures var r := Run(s, [LoopCheck(t1), AttemptDone(t2, Fetched(text))]);
      Attempts(r.notices) == 1 && r.state.phase == Idle && r.state.lastUpdate == t2
  {
    RunTwo(s, LoopCheck(t1), AttemptDone(t2, Fetched(text)));
    var p := Step(s, LoopCheck(t1));
    var q := Step(p.state, AttemptDone(t2, Fetched(text)));
    assert p.notices == [AttemptStarted(s.times + 1)];
    assert Attempts(p.notices) == 1 by {
      assert p.notices[..0] == [];
    }
    assert Attempts(q.notices) == 0 by {
      if |q.notices| == 2 {
        assert q.notices[..1][..0] == [];
      } else {
        assert q.notices[..0] == [];
      }
    }
    AttemptsAppend(p.notices, q.notices);
  }

  /** Single flight, end to end: two requests while the playlist is stale,
      one successful attempt, then any further requests and checks before
      the next expiry make exactly one attempt in all. */
  lemma OneAttemptPerExpiry(s: State, t1: int, t2: int, text: string, later: seq<Event>)
    requires s.phase == Idle && NeedUpdate(t1, s.lastUpdate)
    requires forall k | 0 <= k < |later| :: !later[k].SetLastUpdate?
    requires forall k | 0 <= k < |later| :: later[k].LoopCheck? ==> !NeedUpdate(later[k].now, t2)
    ensures Attempts(Run(s, [Request, Request] + [LoopCheck(t1), AttemptDone(t2, Fetched(text))] + later).notices) == 1
  {
    var start := [Request, Request];
    var job := [LoopCheck(t1), AttemptDone(t2, Fetched(text))];
    RunTwo(s, Request, Request);
    var r1 := Run(s, start);
    assert r1.state == s.(phase := Checking, times := 0);
    assert Attempts(r1.notices) == 0 by {
      assert r1.notices == [UpdatingChanged(true)];
      assert r1.notices[..0] == [];
    }
    StaleJobSucceeds(r1.state, t1, t2, text);
    var r2 := Run(r1.state, job);
    RunAppend(s, start, job);
    AttemptsAppend(r1.notices, r2.notices);
    var r3 := Run(r2.state, later);
    NoAttemptWhileFresh(r2.state, later);
    RunAppend(s, start + job, later);
    AttemptsAppend(r1.notices + r2.notices, r3.notices);
  }

  // ---------------------------------------------------------------------
  // loadPlaylist

  /** The playlist shown on start and the sync machine after the load. */
  datatype Loaded = Loaded(playlist: seq<Channel>, sync: Transition)

  /** `loadPlaylist`: read and decode the stored file (`decode` stands for
      the JSON reader and yields None where it throws); on failure reset
      lastUpdate to 0 and show the empty built-in playlist; in every case
      request an update afterwards. */
  function LoadPlaylist(s: State, decode: string -> Option<seq<Channel>>): (r: Loaded)
    ensures r.sync.state.phase != Idle
    ensures r.sync.state.stored == s.stored
    ensures r.sync.notices == if s.phase == Idle then [UpdatingChanged(true)] else []
    ensures s.stored.Some? && decode(s.stored.value).Some? ==>
      r.playlist == decode(s.stored.value).value && r.sync.state.lastUpdate == s.lastUpdate
    ensures s.stored.None? || decode(s.stored.value).None? ==>
      r.playlist == [] && r.sync.state.lastUpdate == 0
  {
    var read := if s.stored.Some? then decode(s.stored.value) else None;
    if read.Some? then Loaded(read.value, Step(s, Request))
    else
      var s' := s.(lastUpdate := 0);
      Loaded([], Step(s', Request))
  }

  /** A failed load forces a refresh: once the clock is past the first 24
      hours of the epoch, the job the load started makes an attempt. */
  lemma LoadFailureForcesRefresh(s: State, decode: string -> Option<seq<Channel>>, now: int)
    requires s.phase == Idle
    requires s.stored.None? || decode(s.stored.value).None?
    requires now > CacheExpirationMs
    ensures Step(LoadPlaylist(s, decode).sync.state, LoopCheck(now)).state.phase == Fetching
  {
  }
}
