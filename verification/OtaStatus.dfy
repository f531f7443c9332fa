/** The ota/status payload: names, codes, messages and ota_build_status in ota_logic.c. */
module OtaStatus {
  import opened Wrappers
  import opened OtaTypes
  import opened JsonText
  import opened OtaWriter
  import OtaMarker

  const OTA_STATUS_MAX: nat := 512

  // The words of the contract and the texts for the administrator need no escaping. The texts are
  // in UTF-8, one character per byte, and are put together from short pieces.
  type Word = s: string | Plain(s) && |s| <= 20 witness ""
  type Message = s: string | Plain(s) && |s| <= 80 witness ""

  function Joined(a: Word, b: Word, c: Word := "", d: Word := ""): Message {
    a + b + c + d
  }

  function StateName(s: OtaState): Word {
    match s
    case Accepted => "accepted"
    case Rejected => "rejected"
    case Downloading => "downloading"
    case Verifying => "verifying"
    case Installing => "installing"
    case Rebooting => "rebooting"
    case Succeeded => "succeeded"
    case Failed => "failed"
    case RolledBack => "rolled_back"
  }

  const CODE_BUSY: Word := "busy"
  const CODE_SAME_VERSION: Word := "same_version"
  const CODE_INVALID_COMMAND: Word := "invalid_command"
  const CODE_IMAGE_TOO_LARGE: Word := "image_too_large"
  const CODE_DOWNLOAD_FAILED: Word := "download_failed"
  const CODE_TLS_ERROR: Word := "tls_error"
  const CODE_SIZE_MISMATCH: Word := "size_mismatch"
  const CODE_SHA256_MISMATCH: Word := "sha256_mismatch"
  const CODE_NO_OTA_PARTITION: Word := "no_ota_partition"
  const CODE_FLASH_ERROR: Word := "flash_error"
  const CODE_NO_MEMORY: Word := "no_memory"
  const CODE_ROLLBACK: Word := "rollback"
  const CODE_INTERNAL: Word := "internal"

  function ErrorCode(e: OtaError): Word {
    match e
    case NoError => ""
    case Busy => CODE_BUSY
    case SameVersion => CODE_SAME_VERSION
    case InvalidCommand => CODE_INVALID_COMMAND
    case ImageTooLarge => CODE_IMAGE_TOO_LARGE
    case DownloadFailed => CODE_DOWNLOAD_FAILED
    case TlsError => CODE_TLS_ERROR
    case SizeMismatch => CODE_SIZE_MISMATCH
    case Sha256Mismatch => CODE_SHA256_MISMATCH
    case NoOtaPartition => CODE_NO_OTA_PARTITION
    case FlashError => CODE_FLASH_ERROR
    case NoMemory => CODE_NO_MEMORY
    case Rollback => CODE_ROLLBACK
    case Internal => CODE_INTERNAL
  }

  const MESSAGE_BUSY := Joined("El equipo ya est\U{C3}\U{A1} ", "instalando otra ", "actualizaci\U{C3}\U{B3}n.")
  const MESSAGE_SAME_VERSION := Joined("El equipo ya tiene ", "esta versi\U{C3}\U{B3}n.")
  const MESSAGE_INVALID_COMMAND := Joined("La orden de actualiz", "aci\U{C3}\U{B3}n es inv\U{C3}\U{A1}lida.")
  const MESSAGE_IMAGE_TOO_LARGE := Joined("La imagen es m\U{C3}\U{A1}s ", "grande que la ", "partici\U{C3}\U{B3}n OTA ", "del equipo.")
  const MESSAGE_DOWNLOAD_FAILED := Joined("No se pudo descargar", " la imagen.")
  const MESSAGE_TLS_ERROR := Joined("No se pudo establece", "r la conexi\U{C3}\U{B3}n ", "segura para la ", "descarga.")
  const MESSAGE_SIZE_MISMATCH := Joined("El tama\U{C3}\U{B1}o de ", "la imagen descargada", " no coincide.")
  const MESSAGE_SHA256_MISMATCH := Joined("El SHA-256 de ", "la imagen descargada", " no coincide.")
  const MESSAGE_NO_OTA_PARTITION := Joined("El equipo no tiene ", "una partici\U{C3}\U{B3}n ", "OTA disponible.")
  const MESSAGE_FLASH_ERROR := Joined("No se pudo escribir ", "la imagen en la ", "memoria flash.")
  const MESSAGE_NO_MEMORY := Joined("El equipo no tiene ", "memoria libre ", "suficiente para ", "la descarga.")
  const MESSAGE_ROLLBACK := Joined("La imagen nueva ", "no se valid\U{C3}\U{B3} ", "y el equipo volvi\U{C3}\U{B3} ", "a la anterior.")
  const MESSAGE_INTERNAL := Joined("Error interno ", "del equipo.")

  function ErrorMessage(e: OtaError): Message {
    match e
    case NoError => ""
    case Busy => MESSAGE_BUSY
    case SameVersion => MESSAGE_SAME_VERSION
    case InvalidCommand => MESSAGE_INVALID_COMMAND
    case ImageTooLarge => MESSAGE_IMAGE_TOO_LARGE
    case DownloadFailed => MESSAGE_DOWNLOAD_FAILED
    case TlsError => MESSAGE_TLS_ERROR
    case SizeMismatch => MESSAGE_SIZE_MISMATCH
    case Sha256Mismatch => MESSAGE_SHA256_MISMATCH
    case NoOtaPartition => MESSAGE_NO_OTA_PARTITION
    case FlashError => MESSAGE_FLASH_ERROR
    case NoMemory => MESSAGE_NO_MEMORY
    case Rollback => MESSAGE_ROLLBACK
    case Internal => MESSAGE_INTERNAL
  }

  predicate ShowsProgress(st: Status) {
    st.state == Downloading && st.progress >= 0
  }

  predicate ShowsError(st: Status) {
    st.state in {Rejected, Failed, RolledBack} && st.error != NoError
  }

  function ProgressText(st: Status): string {
    if ShowsProgress(st) then ",\"progress\":" + Decimal(if st.progress > 100 then 100 else st.progress) else ""
  }

  /** A text that needs no escaping, between quotation marks. */
  function InQuotes(s: string): string {
    "\"" + s + "\""
  }

  function ErrorObject(code: Word, message: Message): string {
    ",\"error\":{\"code\":" + InQuotes(code) + ",\"message\":" + InQuotes(message) + ['}']
  }

  function ErrorText(st: Status): string {
    if ShowsError(st) then ErrorObject(ErrorCode(st.error), ErrorMessage(st.error)) else ""
  }

  const LABEL_REQUEST_ID := "{\"request_id\":"
  const LABEL_STATE := ",\"state\":"
  const LABEL_RUNNING_VERSION := ",\"running_version\":"
  const LABEL_TARGET_VERSION := ",\"target_version\":"

  predicate PrintableStatus(st: Status, running: string) {
    IsCString(st.requestId) && IsCString(st.targetVersion) && IsCString(running)
  }

  function StatusText(st: Status, running: string): string
    requires PrintableStatus(st, running)
  {
    LABEL_REQUEST_ID + Quoted(st.requestId)
    + LABEL_STATE + InQuotes(StateName(st.state))
    + ProgressText(st) + ErrorText(st)
    + LABEL_RUNNING_VERSION + Quoted(running)
    + LABEL_TARGET_VERSION + Quoted(st.targetVersion) + ['}']
  }

  method PlainString(w: Writer, s: string)
    requires w.Valid() && Plain(s)
    modifies w, w.buf
    ensures w.Appended(InQuotes(s))
  {
    PlainNeedsNoEscape(s);
    w.QuotedString(s);
  }

  method Progress(w: Writer, st: Status)
    requires w.Valid()
    modifies w, w.buf
    ensures w.Appended(ProgressText(st))
  {
    if ShowsProgress(st) {
      w.Raw(",\"progress\":");
      w.Int(if st.progress > 100 then 100 else st.progress);
    } else {
      assert w.text + "" == w.text;
    }
  }

  method ErrorMembers(w: Writer, code: Word, message: Message)
    requires w.Valid()
    modifies w, w.buf
    ensures w.Appended(ErrorObject(code, message))
  {
    w.Raw(",\"error\":{\"code\":");
    PlainString(w, code);
    w.Raw(",\"message\":");
    PlainString(w, message);
    w.Char('}');
  }

  method Error(w: Writer, st: Status)
    requires w.Valid()
    modifies w, w.buf
    ensures w.Appended(ErrorText(st))
  {
    if ShowsError(st) {
      ErrorMembers(w, ErrorCode(st.error), ErrorMessage(st.error));
    } else {
      assert w.text + "" == w.text;
    }
  }

  /** `n` is the length of the payload, 0 when it does not fit; past `size` the buffer is untouched. */
  method Build(buf: array<char>, size: nat, st: Status, running: string) returns (n: nat)
    requires PrintableStatus(st, running) && size <= buf.Length
    modifies buf
    ensures n == if |StatusText(st, running)| < size then |StatusText(st, running)| else 0
    ensures n > 0 ==> buf[..n] == StatusText(st, running)
    ensures size > 0 ==> buf[n] == 0 as char
    ensures buf[size..] == old(buf[size..])
  {
    var w := new Writer(buf, size);
    w.Raw(LABEL_REQUEST_ID);
    assert "" + LABEL_REQUEST_ID == LABEL_REQUEST_ID;
    w.QuotedString(st.requestId);
    w.Raw(LABEL_STATE);
    PlainString(w, StateName(st.state));
    Progress(w, st);
    Error(w, st);
    w.Raw(LABEL_RUNNING_VERSION);
    w.QuotedString(running);
    w.Raw(LABEL_TARGET_VERSION);
    w.QuotedString(st.targetVersion);
    w.Char('}');
    n := w.Finish();
  }

  // ---------------------------------------------------------------- what the payload says

  const KEY_RUNNING: Word := "running_version"
  const KEY_TARGET: Word := "target_version"
  const KEY_REQUEST: Word := "request_id"
  const KEY_STATE: Word := "state"
  const KEY_PROGRESS: Word := "progress"
  const KEY_ERROR: Word := "error"
  const KEY_CODE: Word := "code"
  const KEY_MESSAGE: Word := "message"

  function WithProgress(st: Status, ms: Members): Members {
    if ShowsProgress(st) then Member(KEY_PROGRESS, Number(if st.progress > 100 then 100 else st.progress), ms) else ms
  }

  function ErrorMember(code: Word, message: Message): Members {
    Member(KEY_CODE, Text(code), Member(KEY_MESSAGE, Text(message), End))
  }

  function WithError(st: Status, ms: Members): Members {
    if ShowsError(st) then Member(KEY_ERROR, Object(ErrorMember(ErrorCode(st.error), ErrorMessage(st.error))), ms) else ms
  }

  function Versions(st: Status, running: string): Members {
    Member(KEY_RUNNING, Text(running), Member(KEY_TARGET, Text(st.targetVersion), End))
  }

  /** The request, its state, the progress of a download or the reason of a failure, and the two versions. */
  function StatusMembers(st: Status, running: string): Members {
    Member(KEY_REQUEST, Text(st.requestId),
           Member(KEY_STATE, Text(StateName(st.state)),
                  WithProgress(st, WithError(st, Versions(st, running)))))
  }

  lemma RequestKey()
    ensures LABEL_REQUEST_ID == "{" + KeyText(KEY_REQUEST)
  {
  }

  lemma StateKey()
    ensures LABEL_STATE == "," + KeyText(KEY_STATE)
  {
  }

  lemma RunningKey()
    ensures LABEL_RUNNING_VERSION == "," + KeyText(KEY_RUNNING)
  {
  }

  lemma TargetKey()
    ensures LABEL_TARGET_VERSION == "," + KeyText(KEY_TARGET)
  {
  }

  lemma InQuotesIsQuoted(s: string)
    requires Plain(s)
    ensures IsCString(s) && InQuotes(s) == Quoted(s)
  {
    PlainNeedsNoEscape(s);
  }

  lemma ProgressKey()
    ensures ",\"progress\":" == "," + KeyText(KEY_PROGRESS)
  {
  }

  lemma ErrorKey()
    ensures ",\"error\":{\"code\":" == "," + KeyText(KEY_ERROR) + "{" + KeyText(KEY_CODE)
  {
  }

  lemma MessageKey()
    ensures ",\"message\":" == "," + KeyText(KEY_MESSAGE)
  {
  }

  lemma NestedToTheRight(outer: string, brace: string, first: string, a: string, second: string, b: string, end: string)
    ensures outer + brace + first + a + second + b + end == outer + (brace + (first + a + (second + b + end)))
  {
    assert first + a + (second + b + end) == first + a + second + b + end;
    assert brace + (first + a + second + b + end) == brace + first + a + second + b + end;
  }

  lemma {:induction false} MessageMemberText(message: Message)
    ensures var last := Member(KEY_MESSAGE, Text(message), End);
            Writable(last) && Rest(last) == ",\"message\":" + InQuotes(message) + "}"
  {
    var last := Member(KEY_MESSAGE, Text(message), End);
    InQuotesIsQuoted(message);
    MessageKey();
    assert Writable(End) && Rest(End) == "}";
    OneMoreMember("", ",\"message\":", KEY_MESSAGE, Text(message), End);
    assert "" + Rest(last) == Rest(last) && "" + ",\"message\":" == ",\"message\":";
  }

  lemma {:induction false} ErrorObjectIsAnObject(code: Word, message: Message)
    ensures Writable(ErrorMember(code, message))
    ensures ErrorObject(code, message) == "," + KeyText(KEY_ERROR) + ValText(Object(ErrorMember(code, message)))
  {
    var ms := ErrorMember(code, message);
    InQuotesIsQuoted(code);
    InQuotesIsQuoted(message);
    ErrorKey();
    MessageKey();
    MessageMemberText(message);
    NestedToTheRight("," + KeyText(KEY_ERROR), "{", KeyText(KEY_CODE), InQuotes(code),
                     ",\"message\":", InQuotes(message), "}");
    assert MembersText(ms) == KeyText(KEY_CODE) + InQuotes(code) + Rest(ms.rest);
    assert ValText(Object(ms)) == "{" + MembersText(ms);
    assert ['}'] == "}";
  }

  lemma {:induction false} ProgressStep(before: string, st: Status, ms: Members)
    requires Writable(ms)
    ensures Writable(WithProgress(st, ms))
    ensures before + ProgressText(st) + Rest(ms) == before + Rest(WithProgress(st, ms))
  {
    if ShowsProgress(st) {
      var shown := if st.progress > 100 then 100 else st.progress;
      ProgressKey();
      OneMoreMember(before, ",\"progress\":", KEY_PROGRESS, Number(shown), ms);
      ToTheRight(before, ",\"progress\":", Decimal(shown));
    } else {
      assert before + "" == before;
    }
  }

  lemma ToTheRight(a: string, b: string, c: string)
    ensures a + (b + c) == a + b + c
  {
  }

  lemma {:induction false} ErrorStep(before: string, st: Status, ms: Members)
    requires Writable(ms)
    ensures Writable(WithError(st, ms))
    ensures before + ErrorText(st) + Rest(ms) == before + Rest(WithError(st, ms))
  {
    if ShowsError(st) {
      var code, message := ErrorCode(st.error), ErrorMessage(st.error);
      var v := Object(ErrorMember(code, message));
      ErrorObjectIsAnObject(code, message);
      OneMoreMember(before, "," + KeyText(KEY_ERROR), KEY_ERROR, v, ms);
      ToTheRight(before, "," + KeyText(KEY_ERROR), ValText(v));
    } else {
      assert before + "" == before;
    }
  }

  lemma {:induction false} VersionsStep(before: string, st: Status, running: string)
    requires PrintableStatus(st, running)
    ensures Writable(Versions(st, running))
    ensures before + LABEL_RUNNING_VERSION + Quoted(running) + LABEL_TARGET_VERSION + Quoted(st.targetVersion) + ['}']
            == before + Rest(Versions(st, running))
  {
    RunningKey();
    TargetKey();
    var last := Versions(st, running).rest;
    assert Writable(End) && Writable(last);
    OneMoreMember(before + LABEL_RUNNING_VERSION + Quoted(running), LABEL_TARGET_VERSION, KEY_TARGET, Text(st.targetVersion), End);
    OneMoreMember(before, LABEL_RUNNING_VERSION, KEY_RUNNING, Text(running), last);
  }

  lemma {:induction false} StatusTextIsAnObject(st: Status, running: string)
    requires PrintableStatus(st, running)
    ensures Writable(StatusMembers(st, running)) && StatusText(st, running) == "{" + MembersText(StatusMembers(st, running))
  {
    var versions := Versions(st, running);
    var errors := WithError(st, versions);
    var progress := WithProgress(st, errors);
    var one := LABEL_REQUEST_ID + Quoted(st.requestId);
    var two := one + LABEL_STATE + InQuotes(StateName(st.state));
    VersionsStep(two + ProgressText(st) + ErrorText(st), st, running);
    ErrorStep(two + ProgressText(st), st, versions);
    ProgressStep(two, st, errors);
    RequestKey();
    StateKey();
    InQuotesIsQuoted(StateName(st.state));
    OneMoreMember(one, LABEL_STATE, KEY_STATE, Text(StateName(st.state)), progress);
    FirstMember(LABEL_REQUEST_ID, StatusMembers(st, running));
  }

  /** Read as JSON the payload says what was reported: no field is lost, moved or altered, the reason included. */
  lemma StatusReadsBack(st: Status, running: string)
    requires PrintableStatus(st, running)
    ensures ParseObject(StatusText(st, running)) == Some(StatusMembers(st, running))
  {
    StatusTextIsAnObject(st, running);
    ObjectReadsBack(StatusMembers(st, running));
  }

  // ---------------------------------------------------------------- the words of the contract

  /** The nine states the backend takes (OtaStatusPayload in status.py). */
  function StateRead(word: string): Option<OtaState> {
    if word == "accepted" then Some(Accepted)
    else if word == "rejected" then Some(Rejected)
    else if word == "downloading" then Some(Downloading)
    else if word == "verifying" then Some(Verifying)
    else if word == "installing" then Some(Installing)
    else if word == "rebooting" then Some(Rebooting)
    else if word == "succeeded" then Some(Succeeded)
    else if word == "failed" then Some(Failed)
    else if word == "rolled_back" then Some(RolledBack)
    else None
  }

  /** The codes of the contract. */
  function CodeRead(word: string): Option<OtaError> {
    if word == "busy" then Some(Busy)
    else if word == "same_version" then Some(SameVersion)
    else if word == "invalid_command" then Some(InvalidCommand)
    else if word == "image_too_large" then Some(ImageTooLarge)
    else if word == "download_failed" then Some(DownloadFailed)
    else if word == "tls_error" then Some(TlsError)
    else if word == "size_mismatch" then Some(SizeMismatch)
    else if word == "sha256_mismatch" then Some(Sha256Mismatch)
    else if word == "no_ota_partition" then Some(NoOtaPartition)
    else if word == "flash_error" then Some(FlashError)
    else if word == "no_memory" then Some(NoMemory)
    else if word == "rollback" then Some(Rollback)
    else if word == "internal" then Some(Internal)
    else None
  }

  /** The error that a text for the administrator is about. */
  function MessageRead(text: string): Option<OtaError> {
    if text == MESSAGE_BUSY then Some(Busy)
    else if text == MESSAGE_SAME_VERSION then Some(SameVersion)
    else if text == MESSAGE_INVALID_COMMAND then Some(InvalidCommand)
    else if text == MESSAGE_IMAGE_TOO_LARGE then Some(ImageTooLarge)
    else if text == MESSAGE_DOWNLOAD_FAILED then Some(DownloadFailed)
    else if text == MESSAGE_TLS_ERROR then Some(TlsError)
    else if text == MESSAGE_SIZE_MISMATCH then Some(SizeMismatch)
    else if text == MESSAGE_SHA256_MISMATCH then Some(Sha256Mismatch)
    else if text == MESSAGE_NO_OTA_PARTITION then Some(NoOtaPartition)
    else if text == MESSAGE_FLASH_ERROR then Some(FlashError)
    else if text == MESSAGE_NO_MEMORY then Some(NoMemory)
    else if text == MESSAGE_ROLLBACK then Some(Rollback)
    else if text == MESSAGE_INTERNAL then Some(Internal)
    else None
  }

  /** A reader of the nine words gets the state back. */
  lemma StateIsRead(s: OtaState)
    ensures StateRead(StateName(s)) == Some(s)
  {
  }

  lemma CommandCodeIsRead(e: OtaError)
    requires AboutTheCommand(e) && e != NoError
    ensures CodeRead(ErrorCode(e)) == Some(e)
  {
  }

  lemma ImageCodeIsRead(e: OtaError)
    requires !AboutTheCommand(e)
    ensures CodeRead(ErrorCode(e)) == Some(e)
  {
  }

  lemma CommandMessageLengths()
    ensures |MESSAGE_BUSY| == 50 && |MESSAGE_SAME_VERSION| == 33 && |MESSAGE_INVALID_COMMAND| == 40
    ensures |MESSAGE_IMAGE_TOO_LARGE| == 58 && |MESSAGE_DOWNLOAD_FAILED| == 31 && |MESSAGE_TLS_ERROR| == 59
    ensures MESSAGE_BUSY[0] == 'E'
  {
  }

  lemma ImageMessageLengths()
    ensures |MESSAGE_SIZE_MISMATCH| == 47 && |MESSAGE_SHA256_MISMATCH| == 47 && |MESSAGE_NO_OTA_PARTITION| == 49
    ensures |MESSAGE_FLASH_ERROR| == 50 && |MESSAGE_NO_MEMORY| == 61 && |MESSAGE_ROLLBACK| == 64 && |MESSAGE_INTERNAL| == 25
    ensures MESSAGE_FLASH_ERROR[0] == 'N' && MESSAGE_SIZE_MISMATCH[3] == 't' && MESSAGE_SHA256_MISMATCH[3] == 'S'
  {
  }

  lemma MessageIsRead(e: OtaError)
    requires e != NoError
    ensures MessageRead(ErrorMessage(e)) == Some(e)
  {
    CommandMessageLengths();
    ImageMessageLengths();
  }

  /** A reader of the codes, and one of the texts, gets the error back. */
  lemma ErrorIsRead(e: OtaError)
    requires e != NoError
    ensures CodeRead(ErrorCode(e)) == Some(e) && MessageRead(ErrorMessage(e)) == Some(e)
  {
    MessageIsRead(e);
    if AboutTheCommand(e) {
      CommandCodeIsRead(e);
    } else {
      ImageCodeIsRead(e);
    }
  }

  // ---------------------------------------------------------------- what a reader makes of it

  /** One member called `key` and no other, holding `v`; or none at all. */
  predicate Has(ms: Members, key: string, v: Option<Val>) {
    Find(ms, key) == v && Count(ms, key) == if v.Some? then 1 else 0
  }

  function Count(ms: Members, key: string): nat {
    match ms
    case End => 0
    case Member(k, _, rest) => (if k == key then 1 else 0) + Count(rest, key)
  }

  function Size(ms: Members): nat {
    match ms
    case End => 0
    case Member(_, _, rest) => 1 + Size(rest)
  }

  lemma KeysAsRead()
    ensures KEY_REQUEST == "request_id" && KEY_STATE == "state" && KEY_PROGRESS == "progress" && KEY_ERROR == "error"
    ensures KEY_RUNNING == "running_version" && KEY_TARGET == "target_version"
    ensures KEY_CODE == "code" && KEY_MESSAGE == "message"
  {
  }

  lemma KeysDiffer()
    ensures |KEY_REQUEST| == 10 && |KEY_PROGRESS| == 8 && |KEY_RUNNING| == 15 && |KEY_TARGET| == 14
    ensures |KEY_STATE| == 5 && |KEY_ERROR| == 5 && KEY_STATE[0] == 's' && KEY_ERROR[0] == 'e'
    ensures |KEY_CODE| == 4 && |KEY_MESSAGE| == 7
  {
  }

  /** What the payload has to say of a rejected, failed or rolled back update: the code and the text of its error. */
  predicate TellsWhy(ms: Members, e: OtaError) {
    && Has(ms, "code", Some(Text(ErrorCode(e)))) && Has(ms, "message", Some(Text(ErrorMessage(e)))) && Size(ms) == 2
  }

  /** "error" is there exactly for the three bad ends with an error. */
  predicate SaysError(ms: Members, st: Status) {
    if (st.state.Rejected? || st.state.Failed? || st.state.RolledBack?) && !st.error.NoError? then
      var v := Find(ms, "error");
      v.Some? && v.value.Object? && Count(ms, "error") == 1 && TellsWhy(v.value.members, st.error)
    else Has(ms, "error", None)
  }

  /** "progress" is there exactly while downloading, with the percentage, 100 at most. */
  predicate SaysProgress(ms: Members, st: Status) {
    if !st.state.Downloading? || st.progress < 0 then Has(ms, "progress", None)
    else if st.progress <= 100 then Has(ms, "progress", Some(Number(st.progress)))
    else Has(ms, "progress", Some(Number(100)))
  }

  predicate SaysTheRest(ms: Members, st: Status, running: string) {
    && Has(ms, "request_id", Some(Text(st.requestId))) && Has(ms, "state", Some(Text(StateName(st.state))))
    && Has(ms, "running_version", Some(Text(running))) && Has(ms, "target_version", Some(Text(st.targetVersion)))
    && Size(ms) == 4 + Count(ms, "progress") + Count(ms, "error")
  }

  lemma OneMemberSays(key: string, v: Val, rest: Members, k: string)
    ensures var ms := Member(key, v, rest);
            && Find(ms, k) == (if k == key then Some(v) else Find(rest, k))
            && Count(ms, k) == (if k == key then 1 else 0) + Count(rest, k)
            && Size(ms) == 1 + Size(rest)
  {
  }

  lemma {:induction false} VersionsSay(st: Status, running: string, key: string)
    ensures var ms := Versions(st, running);
            && Size(ms) == 2
            && Find(ms, key) == (if key == KEY_RUNNING then Some(Text(running))
                                 else if key == KEY_TARGET then Some(Text(st.targetVersion)) else None)
            && Count(ms, key) == if key == KEY_RUNNING || key == KEY_TARGET then 1 else 0
  {
    KeysDiffer();
    var last := Member(KEY_TARGET, Text(st.targetVersion), End);
    assert Count(End, key) == 0 && Find(End, key) == None && Size(End) == 0;
    OneMemberSays(KEY_TARGET, Text(st.targetVersion), End, key);
    OneMemberSays(KEY_RUNNING, Text(running), last, key);
  }

  lemma ErrorMemberSays(code: Word, message: Message)
    ensures var ms := ErrorMember(code, message);
            Has(ms, "code", Some(Text(code))) && Has(ms, "message", Some(Text(message))) && Size(ms) == 2
  {
    KeysAsRead();
    KeysDiffer();
    var last := Member(KEY_MESSAGE, Text(message), End);
    assert Count(End, KEY_CODE) == 0 && Count(End, KEY_MESSAGE) == 0;
    assert Count(last, KEY_CODE) == 0 && Count(last, KEY_MESSAGE) == 1 && Size(last) == 1;
  }

  lemma WithErrorSays(st: Status, running: string, key: string)
    ensures var ms := WithError(st, Versions(st, running));
            && SaysError(ms, st) && Size(ms) == 2 + Count(ms, "error")
            && (key != "error" ==>
                  && Find(ms, key) == Find(Versions(st, running), key)
                  && Count(ms, key) == Count(Versions(st, running), key))
  {
    KeysAsRead();
    KeysDiffer();
    var ms := Versions(st, running);
    var code, message := ErrorCode(st.error), ErrorMessage(st.error);
    VersionsSay(st, running, KEY_ERROR);
    VersionsSay(st, running, key);
    ErrorMemberSays(code, message);
    OneMemberSays(KEY_ERROR, Object(ErrorMember(code, message)), ms, KEY_ERROR);
    OneMemberSays(KEY_ERROR, Object(ErrorMember(code, message)), ms, key);
    assert Count(ms, KEY_ERROR) == 0 && Find(ms, KEY_ERROR) == None;
  }

  function Capped(progress: int): Val {
    Number(if progress > 100 then 100 else progress)
  }

  /** The members in front of the error leave the others as they are. */
  lemma {:induction false} InFrontOfTheError(st: Status, running: string, key: string)
    ensures var after := WithError(st, Versions(st, running));
            var ms := StatusMembers(st, running);
            && Size(ms) == Size(after) + 2 + Count(ms, KEY_PROGRESS)
            && (key !in [KEY_REQUEST, KEY_STATE, KEY_PROGRESS] ==>
                  Find(ms, key) == Find(after, key) && Count(ms, key) == Count(after, key))
            && (key == KEY_REQUEST ==> Has(ms, key, Some(Text(st.requestId))))
            && (key == KEY_STATE ==> Has(ms, key, Some(Text(StateName(st.state)))))
            && (key == KEY_PROGRESS ==>
                  Has(ms, key, if st.state.Downloading? && st.progress >= 0 then Some(Capped(st.progress)) else None))
  {
    KeysDiffer();
    var after := WithError(st, Versions(st, running));
    var progress := WithProgress(st, after);
    NotBehindTheError(st, running, key);
    NotBehindTheError(st, running, KEY_PROGRESS);
    OneMemberSays(KEY_PROGRESS, Capped(st.progress), after, key);
    OneMemberSays(KEY_PROGRESS, Capped(st.progress), after, KEY_PROGRESS);
    OneMemberSays(KEY_STATE, Text(StateName(st.state)), progress, key);
    OneMemberSays(KEY_STATE, Text(StateName(st.state)), progress, KEY_PROGRESS);
    OneMemberSays(KEY_REQUEST, Text(st.requestId), StatusMembers(st, running).rest, key);
    OneMemberSays(KEY_REQUEST, Text(st.requestId), StatusMembers(st, running).rest, KEY_PROGRESS);
  }

  lemma NotBehindTheError(st: Status, running: string, key: string)
    ensures key in [KEY_REQUEST, KEY_STATE, KEY_PROGRESS] ==> Has(WithError(st, Versions(st, running)), key, None)
  {
    KeysAsRead();
    KeysDiffer();
    WithErrorSays(st, running, key);
    VersionsSay(st, running, key);
  }

  lemma MembersSay(st: Status, running: string)
    ensures var ms := StatusMembers(st, running);
            SaysProgress(ms, st) && SaysError(ms, st) && SaysTheRest(ms, st, running)
  {
    KeysAsRead();
    KeysDiffer();
    InFrontOfTheError(st, running, KEY_REQUEST);
    InFrontOfTheError(st, running, KEY_STATE);
    InFrontOfTheError(st, running, KEY_PROGRESS);
    InFrontOfTheError(st, running, KEY_ERROR);
    InFrontOfTheError(st, running, KEY_RUNNING);
    InFrontOfTheError(st, running, KEY_TARGET);
    WithErrorSays(st, running, KEY_RUNNING);
    WithErrorSays(st, running, KEY_TARGET);
    VersionsSay(st, running, KEY_RUNNING);
    VersionsSay(st, running, KEY_TARGET);
  }

  /**
   What the backend reads from the payload: the request, its state, the percentage exactly while downloading,
   the reason exactly when it was rejected, failed or was rolled back, the two versions, and nothing else.
   */
  lemma PayloadSays(st: Status, running: string)
    requires PrintableStatus(st, running)
    ensures var read := ParseObject(StatusText(st, running));
            read.Some? && SaysProgress(read.value, st) && SaysError(read.value, st) && SaysTheRest(read.value, st, running)
  {
    StatusReadsBack(st, running);
    MembersSay(st, running);
  }

  // ---------------------------------------------------------------- does a status always fit?

  /** What the longest status that does not follow a marker takes besides the id and the versions. */
  const LONGEST_OVERHEAD: nat := 183

  /**
   The statuses that the firmware sends: the states with the errors they come with. A rolled back update
   left a marker, whose texts fit in NVS, and runs the version that the marker calls the previous one.
   */
  predicate Sent(st: Status, running: string)
    requires PrintableStatus(st, running)
  {
    match st.state
    case Rejected => st.error in {Busy, SameVersion, InvalidCommand, ImageTooLarge}
    case Failed =>
      st.error in {NoOtaPartition, ImageTooLarge, Internal, NoMemory, TlsError, DownloadFailed, SizeMismatch,
                   Sha256Mismatch, FlashError}
    case RolledBack => st.error == Rollback && EscapedTotal(st, running) <= OtaMarker.MARKER_TEXTS_MAX
    case _ => st.error == NoError
  }

  /** What a payload takes besides the two versions and the request id. */
  function Overhead(st: Status): nat {
    67 + |InQuotes(StateName(st.state))| + |ProgressText(st)| + |ErrorText(st)|
  }

  function EscapedTotal(st: Status, running: string): nat
    requires PrintableStatus(st, running)
  {
    |Escaped(st.requestId)| + |Escaped(running)| + |Escaped(st.targetVersion)|
  }

  lemma AtMostThreeDigits(n: int)
    requires n <= 100
    ensures 0 <= n ==> |Decimal(n)| <= 3
  {
    if 10 <= n {
      assert |DecimalOfNat(n / 10)| <= 2 by {
        assert n / 10 < 10 || DecimalOfNat(n / 10 / 10) == [HexChar(n / 10 / 10)];
      }
    }
  }

  lemma ProgressLength(st: Status)
    ensures |ProgressText(st)| <= 15
  {
    AtMostThreeDigits(if st.progress > 100 then 100 else st.progress);
  }

  predicate AboutTheCommand(e: OtaError) {
    e in {NoError, Busy, SameVersion, InvalidCommand, ImageTooLarge, DownloadFailed, TlsError}
  }

  lemma CommandWordsLength(e: OtaError)
    requires AboutTheCommand(e)
    ensures |ErrorCode(e)| + |ErrorMessage(e)| <= 73
  {
  }

  lemma ImageTooLargeWordsLength()
    ensures |ErrorCode(ImageTooLarge)| + |ErrorMessage(ImageTooLarge)| == 73
  {
  }

  lemma ImageWordsLength(e: OtaError)
    requires !AboutTheCommand(e)
    ensures |ErrorCode(e)| + |ErrorMessage(e)| <= 73
  {
  }

  /** The longest code and message together are those of image_too_large. */
  lemma ErrorWordsLength(e: OtaError)
    ensures |ErrorCode(e)| + |ErrorMessage(e)| <= 73
    ensures |ErrorCode(ImageTooLarge)| + |ErrorMessage(ImageTooLarge)| == 73
  {
    ImageTooLargeWordsLength();
    if AboutTheCommand(e) {
      CommandWordsLength(e);
    } else {
      ImageWordsLength(e);
    }
  }

  lemma StateNameLength(s: OtaState)
    ensures |StateName(s)| <= 11
    ensures |StateName(Rejected)| == 8 && |StateName(Failed)| == 6
  {
  }

  lemma ErrorObjectLength(code: Word, message: Message)
    ensures |ErrorObject(code, message)| == 33 + |code| + |message|
  {
  }

  lemma OverheadLength(st: Status)
    ensures st.state in {Rejected, Failed} ==> Overhead(st) <= LONGEST_OVERHEAD
    ensures st.error == NoError ==> Overhead(st) <= LONGEST_OVERHEAD
    ensures Overhead(st) <= LONGEST_OVERHEAD + 3
    ensures st.state == Rejected && st.error == ImageTooLarge ==> Overhead(st) == LONGEST_OVERHEAD
  {
    StateNameLength(st.state);
    ProgressLength(st);
    ErrorWordsLength(st.error);
    ErrorObjectLength(ErrorCode(st.error), ErrorMessage(st.error));
  }

  lemma StatusLength(st: Status, running: string)
    requires PrintableStatus(st, running)
    ensures |StatusText(st, running)| == Overhead(st) + EscapedTotal(st, running)
  {
    assert |LABEL_REQUEST_ID| == 14 && |LABEL_STATE| == 9;
    assert |LABEL_RUNNING_VERSION| == 19 && |LABEL_TARGET_VERSION| == 18;
  }

  /** Whatever the firmware sends about a request, the payload fits. */
  ghost predicate AlwaysFits(id: RequestId, target: Version, running: Version)
    requires IsCString(id) && IsCString(target) && IsCString(running)
  {
    forall state, error, progress :: Sent(Status(id, target, state, error, progress), running) ==>
      |StatusText(Status(id, target, state, error, progress), running)| < OTA_STATUS_MAX
  }

  lemma SentLength(st: Status, running: string)
    requires PrintableStatus(st, running) && Sent(st, running)
    ensures |StatusText(st, running)| < OTA_STATUS_MAX || EscapedTotal(st, running) > 328
  {
    StatusLength(st, running);
    OverheadLength(st);
  }

  lemma RejectedLength(id: RequestId, target: Version, running: Version)
    requires IsCString(id) && IsCString(target) && IsCString(running)
    ensures var longest := Status(id, target, Rejected, ImageTooLarge, -1);
            && Sent(longest, running)
            && |StatusText(longest, running)| == 183 + |Escaped(id)| + |Escaped(target)| + |Escaped(running)|
  {
    var longest := Status(id, target, Rejected, ImageTooLarge, -1);
    StatusLength(longest, running);
    OverheadLength(longest);
  }

  /** All that is sent about a request fits exactly when its id and the two versions take at most 328 bytes once escaped. */
  lemma FitsExactly(id: RequestId, target: Version, running: Version)
    requires IsCString(id) && IsCString(target) && IsCString(running)
    ensures AlwaysFits(id, target, running) <==> |Escaped(id)| + |Escaped(target)| + |Escaped(running)| <= 328
  {
    RejectedLength(id, target, running);
    if |Escaped(id)| + |Escaped(target)| + |Escaped(running)| <= 328 {
      forall state, error, progress | Sent(Status(id, target, state, error, progress), running)
        ensures |StatusText(Status(id, target, state, error, progress), running)| < OTA_STATUS_MAX
      {
        SentLength(Status(id, target, state, error, progress), running);
      }
    }
  }

  lemma {:induction false} AtMostTwoEach(s: string)
    requires IsCString(s) && forall i :: 0 <= i < |s| ==> |EscapedChar(s[i])| <= 2
    ensures |Escaped(s)| <= 2 * |s|
  {
    if s != "" {
      AtMostTwoEach(s[1..]);
    }
  }

  /**
   That is so whenever no byte of the id and of the versions needs more than the two output bytes of a
   backslash escape, as when control characters are limited to \n, \r and \t.
   */
  lemma StatusFits(id: RequestId, target: Version, running: Version)
    requires IsCString(id) && IsCString(target) && IsCString(running)
    requires forall s, i :: s in [id, target, running] && 0 <= i < |s| ==> |EscapedChar(s[i])| <= 2
    ensures AlwaysFits(id, target, running)
  {
    forall s | s in [id, target, running]
      ensures |Escaped(s)| <= 2 * |s|
    {
      AtMostTwoEach(s);
    }
    assert id in [id, target, running] && target in [id, target, running] && running in [id, target, running];
    FitsExactly(id, target, running);
  }

  lemma {:induction false} ControlCharactersTakeSix(s: string)
    requires forall i :: 0 <= i < |s| ==> s[i] == 1 as char
    ensures IsCString(s) && |Escaped(s)| == 6 * |s|
  {
    if s != "" {
      ControlCharactersTakeSix(s[1..]);
    }
  }

  /**
   "A serialized ota/status payload always fits" (ota_logic.h:36) does not hold for every id and
   version the command parser lets through: other control characters take six bytes each, and then not
   even the acceptance of the command can be sent.
   */
  lemma SomeStatusDoesNotFit() returns (st: Status, running: Version)
    ensures PrintableStatus(st, running) && Sent(st, running) && st.state == Accepted
    ensures |StatusText(st, running)| >= OTA_STATUS_MAX
  {
    var id: RequestId := seq(64, _ => 1 as char);
    var version: Version := seq(32, _ => 1 as char);
    st, running := Status(id, version, Accepted, NoError, -1), "1";
    ControlCharactersTakeSix(id);
    ControlCharactersTakeSix(version);
    StatusLength(st, running);
  }
}
