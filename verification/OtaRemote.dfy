/** The open question of the web page: a check or a request to the platform (ota_remote.c). */
module OtaRemote {
  import opened Wrappers
  import opened OtaTypes
  import opened OtaTracker
  import opened OtaStatus

  const OTA_REMOTE_MSG_MAX: nat := 128
  const OTA_REMOTE_CODE_MAX: nat := 32
  const OTA_REMOTE_ANSWER_TIMEOUT_MS := 20000

  datatype Phase = Idle | Checking | UpToDate | Available | Requesting | Updating | Error

  datatype Question = Question(
    phase: Phase, requestId: RequestId, sinceMs: int,
    hasAnswer: bool, answeredMs: int,
    version: Version, size: UInt32,
    errorCode: string, errorMessage: string)

  /** An ota/available that could be read: it names its question, and a version or a code is never empty. */
  type OfferedVersion = v: Version | v != "" witness "1"
  type Code = s: string | s != "" witness "e"

  datatype Answer = Answer(requestId: RequestId, version: Option<OfferedVersion>, size: UInt32, error: Option<(Code, string)>)

  const INITIAL := Question(Idle, "", 0, false, 0, "", 0, "", "")

  function Truncated(s: string, cap: nat): string
    requires cap > 0
  {
    if |s| < cap then s else s[..cap - 1]
  }

  predicate IsBusy(q: Question) {
    q.phase in {Checking, Requesting, Updating}
  }

  // ---------------------------------------------------------------- the transitions

  const TIMEOUT_CODE: Code := "timeout"
  const REFUSED_CODE: Code := "refused"
  const TIMEOUT_MESSAGE := "La plataforma no respondi\U{C3}\U{B3} a tiempo"
  const REFUSED_MESSAGE := "La plataforma rechaz\U{C3}\U{B3} el pedido"

  function ClosedWith(q: Question, code: Code, message: string, now: int): Question {
    q.(phase := Error, errorCode := Truncated(code, OTA_REMOTE_CODE_MAX),
       errorMessage := Truncated(message, OTA_REMOTE_MSG_MAX), hasAnswer := true, answeredMs := now)
  }

  function BeginCheck(q: Question, id: RequestId, now: int): Option<Question> {
    if IsBusy(q) || id == "" then None
    else Some(q.(phase := Checking, requestId := id, sinceMs := now, version := "", size := 0,
                 errorCode := "", errorMessage := ""))
  }

  function BeginRequest(q: Question, id: RequestId, now: int): Option<Question> {
    if !q.phase.Available? || q.version == "" || id == "" then None
    else Some(q.(phase := Requesting, requestId := id, sinceMs := now, errorCode := "", errorMessage := ""))
  }

  /** None when the answer is not the awaited one. */
  function OnAvailable(q: Question, a: Answer, now: int): Option<Question> {
    if a.requestId != q.requestId then None
    else match q.phase
      case Checking =>
        if a.error.Some? then Some(ClosedWith(q, a.error.value.0, a.error.value.1, now))
        else if a.version.Some? then Some(q.(hasAnswer := true, answeredMs := now, phase := Available,
                                             version := a.version.value, size := a.size))
        else Some(q.(hasAnswer := true, answeredMs := now, phase := UpToDate))
      case Requesting =>
        if a.error.Some? then Some(ClosedWith(q, a.error.value.0, a.error.value.1, now))
        else Some(ClosedWith(q, REFUSED_CODE, REFUSED_MESSAGE, now))
      case _ => None
  }

  /** A status that ended badly carries an error; NoError stands for an internal one. */
  function StatusError(st: Status): OtaError {
    if st.error != NoError then st.error else Internal
  }

  lemma CodesAreNotEmpty(e: OtaError)
    requires e != NoError
    ensures ErrorCode(e) != ""
  {
  }

  function CodeOf(e: OtaError): Code
    requires e != NoError
  {
    CodesAreNotEmpty(e);
    ErrorCode(e)
  }

  function OnStatus(q: Question, st: Status, now: int): Question {
    if st.requestId != q.requestId || q.phase !in {Requesting, Updating} then q
    else if IsActive(st.state) then q.(phase := Updating)
    else if st.state in {Rejected, OtaState.Failed, RolledBack} then
      ClosedWith(q, CodeOf(StatusError(st)), ErrorMessage(StatusError(st)), now)
    else q
  }

  function Step(q: Question, now: int): Question {
    if q.phase !in {Checking, Requesting} then q
    else if now - q.sinceMs >= OTA_REMOTE_ANSWER_TIMEOUT_MS then ClosedWith(q, TIMEOUT_CODE, TIMEOUT_MESSAGE, now)
    else q
  }

  function Fail(q: Question, code: Code, message: string): Question {
    if q.phase !in {Checking, Requesting} then q else ClosedWith(q, code, message, q.sinceMs)
  }

  /** remote_sync_locked: the timeout, then the status the record has of the question. */
  function Sync(q: Question, t: seq<Status>, now: int): Question {
    var s := Step(q, now);
    if s.phase !in {Requesting, Updating} then s
    else match Lookup(t, s.requestId)
      case None => s
      case Some(st) => OnStatus(s, st, now)
  }

  // ---------------------------------------------------------------- the question as the firmware keeps it

  class Remote {
    var phase: Phase
    var requestId: RequestId
    var sinceMs: int
    var hasAnswer: bool
    var answeredMs: int
    var version: Version
    var size: UInt32
    var errorCode: string
    var errorMessage: string

    ghost function View(): Question
      reads this
    {
      Question(phase, requestId, sinceMs, hasAnswer, answeredMs, version, size, errorCode, errorMessage)
    }

    constructor ()
      ensures View() == INITIAL
      ensures phase == Idle && requestId == "" && version == "" && size == 0 && errorCode == "" && errorMessage == ""
      ensures sinceMs == 0 && !hasAnswer && answeredMs == 0
    {
      phase, requestId, sinceMs, hasAnswer, answeredMs := Idle, "", 0, false, 0;
      version, size, errorCode, errorMessage := "", 0, "", "";
    }

    method SetError(code: Code, message: string, now: int)
      modifies this
      ensures View() == ClosedWith(old(View()), code, message, now)
    {
      phase := Error;
      errorCode := Truncated(code, OTA_REMOTE_CODE_MAX);
      errorMessage := Truncated(message, OTA_REMOTE_MSG_MAX);
      hasAnswer := true;
      answeredMs := now;
    }

    method Check(id: RequestId, now: int) returns (started: bool)
      modifies this
      ensures started == BeginCheck(old(View()), id, now).Some?
      ensures View() == if started then BeginCheck(old(View()), id, now).value else old(View())
    {
      if phase in {Checking, Requesting, Updating} || id == "" {
        return false;
      }
      phase := Checking;
      requestId := id;
      sinceMs := now;
      version := "";
      size := 0;
      errorCode, errorMessage := "", "";
      return true;
    }

    method Request(id: RequestId, now: int) returns (started: bool)
      modifies this
      ensures started == BeginRequest(old(View()), id, now).Some?
      ensures View() == if started then BeginRequest(old(View()), id, now).value else old(View())
    {
      if phase != Available || version == "" || id == "" {
        return false;
      }
      phase := Requesting;
      requestId := id;
      sinceMs := now;
      errorCode, errorMessage := "", "";
      return true;
    }

    method Answered(a: Answer, now: int) returns (mine: bool)
      modifies this
      ensures mine == OnAvailable(old(View()), a, now).Some?
      ensures View() == if mine then OnAvailable(old(View()), a, now).value else old(View())
    {
      if a.requestId != requestId {
        return false;
      }
      if phase == Checking {
        if a.error.Some? {
          SetError(a.error.value.0, a.error.value.1, now);
          return true;
        }
        hasAnswer := true;
        answeredMs := now;
        if a.version.Some? {
          phase := Available;
          version := a.version.value;
          size := a.size;
        } else {
          phase := UpToDate;
        }
        return true;
      }
      if phase == Requesting {
        if a.error.Some? {
          SetError(a.error.value.0, a.error.value.1, now);
        } else {
          SetError(REFUSED_CODE, REFUSED_MESSAGE, now);
        }
        return true;
      }
      return false;
    }

    method Tracked(st: Status, now: int)
      modifies this
      ensures View() == OnStatus(old(View()), st, now)
    {
      if st.requestId != requestId || (phase != Requesting && phase != Updating) {
        return;
      }
      if IsActive(st.state) {
        phase := Updating;
        return;
      }
      if st.state == Rejected || st.state == OtaState.Failed || st.state == RolledBack {
        var error := if st.error != NoError then st.error else Internal;
        SetError(CodeOf(error), ErrorMessage(error), now);
      }
    }

    method Tick(now: int)
      modifies this
      ensures View() == Step(old(View()), now)
    {
      if phase != Checking && phase != Requesting {
        return;
      }
      if now - sinceMs >= OTA_REMOTE_ANSWER_TIMEOUT_MS {
        SetError(TIMEOUT_CODE, TIMEOUT_MESSAGE, now);
      }
    }

    method NotSent(code: Code, message: string)
      modifies this
      ensures View() == Fail(old(View()), code, message)
    {
      if phase != Checking && phase != Requesting {
        return;
      }
      SetError(code, message, sinceMs);
    }

    method SyncWith(tracker: Tracker, now: int)
      requires tracker.Valid()
      modifies this
      ensures View() == Sync(old(View()), tracker.Contents(), now)
    {
      Tick(now);
      if phase != Requesting && phase != Updating {
        return;
      }
      var tracked := tracker.Find(requestId);
      if tracked.Some? {
        Tracked(tracked.value, now);
      }
    }
  }

  // ---------------------------------------------------------------- whole runs

  datatype Event =
    | ToCheck(id: RequestId, now: int)
    | ToRequest(id: RequestId, now: int)
    | FromPlatform(answer: Answer, now: int)
    | FromTracker(status: Status, now: int)
    | Clock(now: int)
    | SendFailed(code: Code, message: string)

  function After(q: Question, e: Event): Question {
    match e
    case ToCheck(id, now) => var r := BeginCheck(q, id, now); if r.Some? then r.value else q
    case ToRequest(id, now) => var r := BeginRequest(q, id, now); if r.Some? then r.value else q
    case FromPlatform(a, now) => var r := OnAvailable(q, a, now); if r.Some? then r.value else q
    case FromTracker(st, now) => OnStatus(q, st, now)
    case Clock(now) => Step(q, now)
    case SendFailed(code, message) => Fail(q, code, message)
  }

  function Run(q: Question, es: seq<Event>): Question
    decreases |es|
  {
    if es == [] then q else Run(After(q, es[0]), es[1..])
  }

  /** The version of the last check that was answered with one. */
  function LastOffer(q: Question, es: seq<Event>, before: Option<Version>): Option<Version>
    decreases |es|
  {
    if es == [] then before
    else LastOffer(After(q, es[0]), es[1..], if Offers(q, es[0]) then Some(es[0].answer.version.value) else before)
  }

  predicate Offers(q: Question, e: Event) {
    e.FromPlatform? && q.phase.Checking? && e.answer.requestId == q.requestId && e.answer.error.None? && e.answer.version.Some?
  }

  predicate Sound(q: Question, offer: Option<Version>) {
    && (q.phase in {Available, Requesting, Updating} ==> q.version != "" && offer == Some(q.version))
    && (IsBusy(q) ==> q.requestId != "")
    && (q.phase.Error? ==> q.errorCode != "" && q.hasAnswer)
    && (q.phase in {UpToDate, Available, Requesting, Updating} ==> q.hasAnswer)
  }

  lemma StepIsSound(q: Question, e: Event, offer: Option<Version>)
    requires Sound(q, offer)
    ensures Sound(After(q, e), if Offers(q, e) then Some(e.answer.version.value) else offer)
  {
  }

  /**
   Over every run: what is available, requested or being installed is the version of the last check that
   was answered with one; an error always says why.
   */
  lemma {:induction false} RunIsSound(q: Question, es: seq<Event>, offer: Option<Version>)
    requires Sound(q, offer)
    ensures Sound(Run(q, es), LastOffer(q, es, offer))
    decreases |es|
  {
    if es != [] {
      StepIsSound(q, es[0], offer);
      RunIsSound(After(q, es[0]), es[1..], if Offers(q, es[0]) then Some(es[0].answer.version.value) else offer);
    }
  }

  lemma FromTheStart(es: seq<Event>)
    ensures Sound(Run(INITIAL, es), LastOffer(INITIAL, es, None))
  {
    RunIsSound(INITIAL, es, None);
  }

  predicate EndsBadly(s: OtaState) {
    s in {Rejected, OtaState.Failed, RolledBack}
  }

  /**
   An update is followed exactly once the record has the question in flight, and until it says that it ended
   badly; the page then shows the error of that status.
   */
  lemma UpdatingFollowsTheRecord(q: Question, e: Event)
    ensures After(q, e).phase.Updating? <==>
              || (q.phase.Updating? && !(e.FromTracker? && e.status.requestId == q.requestId && EndsBadly(e.status.state)))
              || (q.phase.Requesting? && e.FromTracker? && e.status.requestId == q.requestId && IsActive(e.status.state))
    ensures q.phase in {Requesting, Updating} && e.FromTracker? && e.status.requestId == q.requestId && EndsBadly(e.status.state) ==>
              && After(q, e).phase.Error? && After(q, e).answeredMs == e.now
              && (e.status.error != NoError ==> After(q, e).errorCode == Truncated(ErrorCode(e.status.error), OTA_REMOTE_CODE_MAX))
  {
  }

  /** An answer closes the question it is for: with its error, with the version it offers, or with none. */
  lemma AnswerClosesTheQuestion(q: Question, a: Answer, now: int)
    ensures OnAvailable(q, a, now).Some? <==> a.requestId == q.requestId && q.phase in {Checking, Requesting}
    ensures OnAvailable(q, a, now).Some? ==>
              var r := OnAvailable(q, a, now).value;
              && r.phase in {Error, Available, UpToDate} && r.hasAnswer && r.answeredMs == now
              && (r.phase.Error? <==> a.error.Some? || q.phase.Requesting?)
              && (r.phase.Available? <==> q.phase.Checking? && a.error.None? && a.version.Some?)
              && (a.error.Some? ==> r.errorCode == Truncated(a.error.value.0, OTA_REMOTE_CODE_MAX))
              && (r.phase.Available? ==> a.version == Some(r.version) && r.size == a.size)
  {
  }

  /** A question never waits longer than the timeout, whatever the record says. */
  lemma NoQuestionWaitsForever(q: Question, t: seq<Status>, now: int)
    requires now - q.sinceMs >= OTA_REMOTE_ANSWER_TIMEOUT_MS
    ensures var s := Sync(q, t, now);
            && s.phase !in {Checking, Requesting}
            && (q.phase in {Checking, Requesting} ==> s.phase.Error? && s.errorCode == TIMEOUT_CODE)
  {
    assert |TIMEOUT_CODE| == 7;
  }

  predicate Opens(e: Event) {
    e.ToCheck? || e.ToRequest?
  }

  /** A question that is not open any more stays so until the page asks again: it has one answer at most. */
  lemma {:induction false} OneAnswer(q: Question, es: seq<Event>, a: Answer, now: int)
    requires q.phase !in {Checking, Requesting}
    requires forall k :: 0 <= k < |es| ==> !Opens(es[k])
    ensures OnAvailable(Run(q, es), a, now).None?
    ensures Run(q, es).requestId == q.requestId && Run(q, es).version == q.version
    decreases |es|
  {
    if es != [] {
      assert !Opens(es[0]);
      OneAnswer(After(q, es[0]), es[1..], a, now);
    }
  }

  /** A look at the page: the clock, and then what the record says of the question. */
  function PageView(q: Question, t: seq<Status>, now: int): seq<Event> {
    match Lookup(t, q.requestId)
    case None => [Clock(now)]
    case Some(st) => [Clock(now), FromTracker(st, now)]
  }

  /** ... so that what holds of every run holds of every look at the page. */
  lemma SyncIsARun(q: Question, t: seq<Status>, now: int)
    ensures Sync(q, t, now) == Run(q, PageView(q, t, now))
  {
    var es := PageView(q, t, now);
    var s := After(q, Clock(now));
    assert Run(q, es) == Run(s, es[1..]);
    if |es| == 2 {
      assert es[1..][1..] == [];
      assert Run(s, es[1..]) == Run(After(s, es[1]), []);
    }
  }

  // ---------------------------------------------------------------- how long a question stays open

  predicate Waiting(q: Question) {
    q.phase.Checking? || q.phase.Requesting?
  }

  /** A waiting question of which the record says nothing is left exactly as it is for 20 seconds, and no longer. */
  lemma LeftAloneForTwentySeconds(q: Question, t: seq<Status>, now: int)
    requires Waiting(q) && Lookup(t, q.requestId).None?
    ensures Sync(q, t, now) == q <==> now - q.sinceMs < 20000
  {
  }

  /** What the record says of another request, or of one that was answered, changes nothing either. */
  lemma RecordOfAnother(q: Question, t: seq<Status>, now: int)
    requires q.phase !in {Checking, Requesting, Updating} || (q.phase.Checking? && now - q.sinceMs < 20000)
    ensures Sync(q, t, now) == q
  {
  }

  /** Nothing in `es` opens a question, fails to send it, answers it or reports on it, and its time is not up. */
  predicate Undisturbed(q: Question, es: seq<Event>) {
    forall k :: 0 <= k < |es| ==>
      match es[k]
      case ToCheck(_, _) => false
      case ToRequest(_, _) => false
      case FromPlatform(a, _) => a.requestId != q.requestId
      case FromTracker(st, _) => st.requestId != q.requestId
      case Clock(now) => now < q.sinceMs + 20000
      case SendFailed(_, _) => false
  }

  lemma {:induction false} StaysOpen(q: Question, es: seq<Event>)
    requires Waiting(q) && Undisturbed(q, es)
    ensures Run(q, es) == q
    decreases |es|
  {
    if es != [] {
      var e := es[0];
      assert After(q, e) == q;
      StaysOpen(q, es[1..]);
    }
  }

  /** What the page shows of an answer: its error, the version it offers, that there is none, or a refusal. */
  predicate Answers(q: Question, a: Answer, now: int, r: Question) {
    && r.hasAnswer && r.answeredMs == now && r.requestId == q.requestId && r.sinceMs == q.sinceMs
    && (a.error.Some? ==>
          && r.phase.Error? && r.errorCode == Cut(a.error.value.0, 31) && r.errorMessage == Cut(a.error.value.1, 127)
          && r.version == q.version)
    && (a.error.None? && q.phase.Requesting? ==> r.phase.Error? && r.errorCode == "refused" && r.version == q.version)
    && (a.error.None? && q.phase.Checking? && a.version.Some? ==>
          r.phase.Available? && r.version == a.version.value && r.size == a.size)
    && (a.error.None? && q.phase.Checking? && a.version.None? ==> r.phase.UpToDate? && r.version == q.version)
  }

  /** As much of `s` as a buffer takes in front of its NUL. */
  function Cut(s: string, n: nat): string {
    s[..if |s| < n then |s| else n]
  }

  lemma TakesTheAnswer(q: Question, a: Answer, now: int)
    requires Waiting(q) && a.requestId == q.requestId
    ensures Answers(q, a, now, After(q, FromPlatform(a, now)))
  {
    assert |REFUSED_CODE| == 7;
  }

  /**
   However often the page is looked at, and whatever else arrives, a question stays open for 20 seconds: the
   first answer that names it is taken for what it says.
   */
  lemma FirstAnswerIsTaken(q: Question, es: seq<Event>, a: Answer, now: int)
    requires Waiting(q) && Undisturbed(q, es) && a.requestId == q.requestId
    ensures Run(q, es) == q
    ensures Answers(q, a, now, Run(q, es + [FromPlatform(a, now)]))
  {
    StaysOpen(q, es);
    RunInTwo(q, es, [FromPlatform(a, now)]);
    TakesTheAnswer(q, a, now);
    assert [FromPlatform(a, now)][1..] == [];
    assert Run(q, [FromPlatform(a, now)]) == Run(After(q, FromPlatform(a, now)), []);
  }

  lemma {:induction false} RunInTwo(q: Question, es: seq<Event>, fs: seq<Event>)
    ensures Run(q, es + fs) == Run(Run(q, es), fs)
    decreases |es|
  {
    if es == [] {
      assert es + fs == fs;
    } else {
      assert (es + fs)[1..] == es[1..] + fs && (es + fs)[0] == es[0];
      RunInTwo(After(q, es[0]), es[1..], fs);
    }
  }

  // ---------------------------------------------------------------- opening and closing

  /**
   A status moves the question only when an update was asked for under its id: on to updating while it is in
   flight, to its error when it ended badly, "internal" when it came with none; success is left to the restart.
   */
  lemma FollowsExactly(q: Question, st: Status, now: int)
    ensures var r := After(q, FromTracker(st, now));
            if q.phase !in {Requesting, Updating} || st.requestId != q.requestId || st.state.Succeeded? then r == q
            else if InFlight(st.state) then r == q.(phase := Updating)
            else EndsWith(q, if st.error.NoError? then Internal else st.error, now, r)
  {
    if q.phase in {Requesting, Updating} && st.requestId == q.requestId && !st.state.Succeeded? {
      FollowsAStatus(q, st, now);
    }
  }

  predicate InFlight(s: OtaState) {
    s.Accepted? || s.Downloading? || s.Verifying? || s.Installing? || s.Rebooting?
  }

  predicate EndsWith(q: Question, e: OtaError, now: int, r: Question) {
    r == q.(phase := Error, errorCode := Cut(ErrorCode(e), 31), errorMessage := Cut(ErrorMessage(e), 127),
            hasAnswer := true, answeredMs := now)
  }

  lemma CutIsTruncated(s: string, n: nat)
    ensures Truncated(s, n + 1) == Cut(s, n)
  {
  }

  lemma ClosedExactly(q: Question, code: Code, message: string, now: int)
    ensures ClosedWith(q, code, message, now) ==
            q.(phase := Error, errorCode := Cut(code, 31), errorMessage := Cut(message, 127),
               hasAnswer := true, answeredMs := now)
  {
    CutIsTruncated(code, 31);
    CutIsTruncated(message, 127);
  }

  lemma FollowsTheActive(q: Question, st: Status, now: int)
    requires q.phase in {Requesting, Updating} && st.requestId == q.requestId && InFlight(st.state)
    ensures OnStatus(q, st, now) == q.(phase := Updating)
  {
  }

  lemma FollowsAStatus(q: Question, st: Status, now: int)
    requires q.phase in {Requesting, Updating} && st.requestId == q.requestId && !st.state.Succeeded?
    ensures InFlight(st.state) ==> OnStatus(q, st, now) == q.(phase := Updating)
    ensures !InFlight(st.state) ==> EndsWith(q, if st.error.NoError? then Internal else st.error, now, OnStatus(q, st, now))
  {
    if InFlight(st.state) {
      FollowsTheActive(q, st, now);
    } else {
      assert st.state.Rejected? || st.state.Failed? || st.state.RolledBack?;
      ClosedExactly(q, CodeOf(StatusError(st)), ErrorMessage(StatusError(st)), now);
    }
  }

  /** A question is opened exactly when none is under way, and starts with nothing known. */
  lemma ChecksExactly(q: Question, id: RequestId, now: int)
    ensures var r := After(q, ToCheck(id, now));
            if q.phase !in {Checking, Requesting, Updating} && id != "" then
              && r == q.(phase := Checking, requestId := id, sinceMs := now, version := "", size := 0,
                         errorCode := "", errorMessage := "")
            else r == q
  {
  }

  /** An update is asked for exactly when a version is on offer, and that version stays on record. */
  lemma RequestsExactly(q: Question, id: RequestId, now: int)
    ensures var r := After(q, ToRequest(id, now));
            if q.phase.Available? && q.version != "" && id != "" then
              r == q.(phase := Requesting, requestId := id, sinceMs := now, errorCode := "", errorMessage := "")
            else r == q
  {
  }

  /** A question that could not be sent, or waited too long, ends in an error that says so; any other one is left alone. */
  lemma EndsUnanswered(q: Question, code: Code, message: string, now: int)
    ensures var r := After(q, SendFailed(code, message));
            if !Waiting(q) then r == q
            else r == q.(phase := Error, errorCode := Cut(code, 31), errorMessage := Cut(message, 127),
                         hasAnswer := true, answeredMs := q.sinceMs)
    ensures var r := After(q, Clock(now));
            if !Waiting(q) || now - q.sinceMs < 20000 then r == q
            else r.phase.Error? && r.errorCode == "timeout" && r.hasAnswer && r.answeredMs == now && r.version == q.version
  {
    assert |TIMEOUT_CODE| == 7;
  }
}
