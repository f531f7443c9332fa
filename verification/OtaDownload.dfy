/** The download of an image into the slot that does not run: download_and_flash in ota_manager.c. */
module OtaDownload {
  import opened Wrappers
  import opened OtaTypes
  import opened OtaProgress
  import opened JsonText

  const OTA_CHUNK_BYTES: nat := 4096
  const DIGEST_BYTES: nat := 32

  type Digest = d: seq<byte> | |d| == DIGEST_BYTES witness seq(DIGEST_BYTES, _ => 0)

  // ---------------------------------------------------------------- the digest in hexadecimal

  function HexOf(bytes: seq<byte>): string {
    if bytes == [] then "" else [HexChar(bytes[0] as int / 16), HexChar(bytes[0] as int % 16)] + HexOf(bytes[1..])
  }

  lemma HexCharIsInjective(a: nat, b: nat)
    requires a < 16 && b < 16 && HexChar(a) == HexChar(b)
    ensures a == b
  {
    assert HexDigit(HexChar(a)) == a && HexDigit(HexChar(b)) == b;
  }

  /** Two digests with the same text are the same digest. */
  lemma {:induction false} HexIsInjective(a: seq<byte>, b: seq<byte>)
    requires HexOf(a) == HexOf(b)
    ensures a == b
    decreases |a|
  {
    if a != [] && b != [] {
      assert HexOf(a)[0] == HexChar(a[0] as int / 16) && HexOf(a)[1] == HexChar(a[0] as int % 16);
      assert HexOf(b)[0] == HexChar(b[0] as int / 16) && HexOf(b)[1] == HexChar(b[0] as int % 16);
      HexCharIsInjective(a[0] as int / 16, b[0] as int / 16);
      HexCharIsInjective(a[0] as int % 16, b[0] as int % 16);
      assert HexOf(a)[2..] == HexOf(a[1..]) && HexOf(b)[2..] == HexOf(b[1..]);
      HexIsInjective(a[1..], b[1..]);
    }
  }

  lemma {:induction false} HexOfOneMore(bytes: seq<byte>, b: byte)
    ensures HexOf(bytes + [b]) == HexOf(bytes) + [HexChar(b as int / 16), HexChar(b as int % 16)]
    ensures |HexOf(bytes)| == 2 * |bytes|
    decreases |bytes|
  {
    if bytes == [] {
      assert [b][1..] == [];
      assert HexOf([b]) == [HexChar(b as int / 16), HexChar(b as int % 16)] + HexOf([]);
    } else {
      HexOfOneMore(bytes[1..], b);
      assert (bytes + [b])[1..] == bytes[1..] + [b];
    }
  }

  // ---------------------------------------------------------------- the digest that a text spells

  /** The value of a digit as the command parser takes it, lower case only; -1 when it is none. */
  function LowerDigit(c: char): (d: int)
    ensures -1 <= d < 16
  {
    if '0' <= c <= '9' then c as int - '0' as int
    else if 'a' <= c <= 'f' then c as int - 'a' as int + 10
    else -1
  }

  /** sha256_hex_is_valid: the only form in which a command may announce a digest. */
  predicate IsShaText(text: string) {
    |text| == 64 && forall i :: 0 <= i < 64 ==> 0 <= LowerDigit(text[i])
  }

  /** The digits 2i and 2i + 1 of `text`, the first one counting 16, are byte i of `digest`. */
  predicate Spells(text: string, digest: seq<byte>) {
    && IsShaText(text) && |digest| == 32
    && forall i :: 0 <= i < 32 ==> PairAt(text, i) == digest[i] as int
  }

  function PairAt(text: string, i: nat): int
    requires 2 * i + 1 < |text|
  {
    16 * LowerDigit(text[2 * i]) + LowerDigit(text[2 * i + 1])
  }

  lemma HexCharIsLower(n: nat)
    requires n < 16
    ensures LowerDigit(HexChar(n)) == n
  {
  }

  lemma {:induction false} HexOfAt(bytes: seq<byte>, i: nat)
    requires i < |bytes|
    ensures |HexOf(bytes)| == 2 * |bytes|
    ensures HexOf(bytes)[2 * i] == HexChar(bytes[i] as int / 16) && HexOf(bytes)[2 * i + 1] == HexChar(bytes[i] as int % 16)
    decreases |bytes|
  {
    HexOfOneMore(bytes, 0);
    if i > 0 {
      HexOfAt(bytes[1..], i - 1);
      assert HexOf(bytes)[2..] == HexOf(bytes[1..]);
    }
  }

  lemma DigestIsSpelled(digest: Digest)
    ensures Spells(HexOf(digest), digest)
  {
    var text := HexOf(digest);
    HexOfOneMore(digest, 0);
    forall i | 0 <= i < 64
      ensures 0 <= LowerDigit(text[i])
    {
      HexOfAt(digest, i / 2);
      HexCharIsLower(digest[i / 2] as int / 16);
      HexCharIsLower(digest[i / 2] as int % 16);
    }
    forall i | 0 <= i < 32
      ensures PairAt(text, i) == digest[i] as int
    {
      HexOfAt(digest, i);
      HexCharIsLower(digest[i] as int / 16);
      HexCharIsLower(digest[i] as int % 16);
    }
  }

  lemma PairsAreUnique(a: int, b: int, c: int, d: int)
    requires 0 <= a < 16 && 0 <= b < 16 && 0 <= c < 16 && 0 <= d < 16 && 16 * a + b == 16 * c + d
    ensures a == c && b == d
  {
  }

  lemma LowerDigitIsInjective(c: char, d: char)
    requires 0 <= LowerDigit(c) == LowerDigit(d)
    ensures c == d
  {
  }

  lemma SpellingIsUnique(a: string, b: string, digest: seq<byte>)
    requires Spells(a, digest) && Spells(b, digest)
    ensures a == b
  {
    forall i | 0 <= i < 64
      ensures a[i] == b[i]
    {
      var k := i / 2;
      assert PairAt(a, k) == PairAt(b, k) && i in {2 * k, 2 * k + 1};
      PairsAreUnique(LowerDigit(a[2 * k]), LowerDigit(a[2 * k + 1]), LowerDigit(b[2 * k]), LowerDigit(b[2 * k + 1]));
      LowerDigitIsInjective(a[i], b[i]);
    }
  }

  /** A text equals the written digest exactly when it spells it: 64 lower-case digits, byte after byte. */
  lemma TextOfADigest(text: string, digest: Digest)
    ensures text == HexOf(digest) <==> Spells(text, digest)
  {
    DigestIsSpelled(digest);
    if Spells(text, digest) {
      SpellingIsUnique(text, HexOf(digest), digest);
    }
  }

  method HexFromDigest(digest: Digest, out: array<char>)
    requires out.Length == 2 * DIGEST_BYTES + 1
    modifies out
    ensures out[..2 * DIGEST_BYTES] == HexOf(digest) && out[2 * DIGEST_BYTES] == 0 as char
    ensures Spells(out[..64], digest)
  {
    DigestIsSpelled(digest);
    assert digest[..0] == [];
    for i := 0 to DIGEST_BYTES
      invariant out[..2 * i] == HexOf(digest[..i])
    {
      HexTable(digest[i] as int / 16);
      HexTable(digest[i] as int % 16);
      out[2 * i] := HEX[digest[i] as int / 16];
      out[2 * i + 1] := HEX[digest[i] as int % 16];
      HexOfOneMore(digest[..i], digest[i]);
      assert digest[..i + 1] == digest[..i] + [digest[i]];
    }
    assert digest[..DIGEST_BYTES] == digest;
    out[2 * DIGEST_BYTES] := 0 as char;
  }

  function VerifyImage(received: nat, expectedSize: UInt32, digestHex: string, expectedHex: string): OtaError {
    if received != expectedSize then SizeMismatch else if digestHex != expectedHex then Sha256Mismatch else NoError
  }

  // ---------------------------------------------------------------- the world around the download

  type Bytes = b: seq<byte> | 0 < |b| <= OTA_CHUNK_BYTES witness [0]

  /** What a read answers: an error, no more bytes, or up to a buffer full of them. */
  datatype Read = Broke | NoMore(complete: bool) | Chunk(bytes: Bytes)

  /** esp_ota_write and esp_ota_end fail with one of these. */
  type FlashFault = e: OtaError | e in {Internal, FlashError} witness Internal

  /** http_error() tells these two apart. */
  type HttpFault = e: OtaError | e in {TlsError, DownloadFailed} witness TlsError

  /** Every answer of the server, of the hash and of the flash, in advance; the k-th pass asks for the k-th. */
  datatype World = World(
    bufferOk: bool, hashOk: bool, clientOk: bool, openOk: bool, httpFault: HttpFault,
    contentLength: int, status: int, beginOk: bool,
    read: nat -> Read, hashUpdateOk: nat -> bool, writeFault: nat -> Option<FlashFault>,
    hashFinishOk: bool, endFault: Option<FlashFault>,
    sha256: seq<byte> -> Digest, startMs: int, clockMs: nat -> int)

  /** Everything the first `n` reads brought. */
  function Received(w: World, n: nat): seq<byte> {
    if n == 0 then [] else Received(w, n - 1) + if w.read(n - 1).Chunk? then w.read(n - 1).bytes else []
  }

  lemma {:induction false} ReceivedGrows(w: World, a: nat, b: nat)
    requires a <= b
    ensures Received(w, a) <= Received(w, b)
    decreases b - a
  {
    if a < b {
      ReceivedGrows(w, a, b - 1);
    }
  }

  /** Pass `k` of the loop goes through: its bytes were read, hashed and written. */
  predicate GoodPass(cmd: Command, w: World, k: nat) {
    w.read(k).Chunk? && |Received(w, k + 1)| <= cmd.size && w.hashUpdateOk(k) && w.writeFault(k).None?
  }

  /** The bytes of pass `k` go past the announced size. */
  predicate TooMuch(cmd: Command, w: World, k: nat) {
    w.read(k).Chunk? && |Received(w, k + 1)| > cmd.size
  }

  predicate Connects(cmd: Command, w: World) {
    && w.bufferOk && w.hashOk && w.clientOk && w.openOk
    && w.status == 200 && (w.contentLength == 0 || w.contentLength == cmd.size) && w.beginOk
  }

  /** The server delivers exactly the image of the command in `n` reads and no step of the way fails. */
  predicate Delivers(cmd: Command, w: World, n: nat) {
    && Connects(cmd, w)
    && (forall k :: 0 <= k < n ==> GoodPass(cmd, w, k))
    && w.read(n) == NoMore(true)
    && w.hashFinishOk
    && |Received(w, n)| == cmd.size && Spells(cmd.sha256, w.sha256(Received(w, n)))
    && w.endFault.None?
  }

  // ---------------------------------------------------------------- the reason of a failure

  /** Why nothing was read at all: the first thing that went wrong decides. */
  predicate RefusedFor(cmd: Command, w: World, result: OtaError) {
    if !w.bufferOk then result == NoMemory
    else if !w.hashOk then result == Internal
    else if !w.clientOk then result == NoMemory
    else if !w.openOk || w.contentLength < 0 || w.status != 200 then result == w.httpFault
    else if w.contentLength > 0 && w.contentLength != cmd.size then result == SizeMismatch
    else !w.beginOk && result == FlashError
  }

  /** Why the loop ended in pass `n`. */
  predicate BrokenOffBy(cmd: Command, w: World, n: nat, result: OtaError) {
    match w.read(n)
    case Broke => result == w.httpFault
    case NoMore(complete) => !complete && result == w.httpFault
    case Chunk(bytes) =>
      if |Received(w, n)| + |bytes| > cmd.size then result == SizeMismatch
      else if !w.hashUpdateOk(n) then result == Internal
      else w.writeFault(n).Some? && result == w.writeFault(n).value
  }

  /** Why everything that the server had was not taken after `n` passes. */
  predicate RejectedFor(cmd: Command, w: World, n: nat, result: OtaError) {
    if w.read(n) != NoMore(true) then false
    else if !w.hashFinishOk then result == Internal
    else if |Received(w, n)| != cmd.size then result == SizeMismatch
    else if !Spells(cmd.sha256, w.sha256(Received(w, n))) then result == Sha256Mismatch
    else w.endFault.Some? && result == w.endFault.value
  }

  predicate FailsFor(cmd: Command, w: World, n: nat, result: OtaError) {
    if Connects(cmd, w) then BrokenOffBy(cmd, w, n, result) || RejectedFor(cmd, w, n, result)
    else n == 0 && RefusedFor(cmd, w, result)
  }

  /** A download gets through exactly where there is no reason for it to fail. */
  lemma ReasonOrDelivery(cmd: Command, w: World, n: nat)
    ensures Connects(cmd, w) <==> forall r :: !RefusedFor(cmd, w, r)
    ensures GoodPass(cmd, w, n) <==> w.read(n).Chunk? && forall r :: !BrokenOffBy(cmd, w, n, r)
    ensures Connects(cmd, w) && (forall k :: 0 <= k < n ==> GoodPass(cmd, w, k)) && w.read(n) == NoMore(true) ==>
              (Delivers(cmd, w, n) <==> forall r :: !RejectedFor(cmd, w, n, r))
  {
    if !Connects(cmd, w) {
      var r :| RefusedFor(cmd, w, r);
    }
    if w.read(n).Chunk? && !GoodPass(cmd, w, n) {
      var r :| BrokenOffBy(cmd, w, n, r);
    }
    if w.read(n) == NoMore(true) && !Delivers(cmd, w, n) && Connects(cmd, w)
       && (forall k :: 0 <= k < n ==> GoodPass(cmd, w, k)) {
      var r :| RejectedFor(cmd, w, n, r);
    }
  }

  /** What the progress rules saw after `n` passes. */
  function SamplesOf(cmd: Command, w: World, n: nat): seq<Sample> {
    if n == 0 then [] else SamplesOf(cmd, w, n - 1) + [(Percent(|Received(w, n)|, cmd.size), w.clockMs(n - 1))]
  }

  // ---------------------------------------------------------------- what the download holds

  /** The resources a download takes; each must be given back. */
  class Ledger {
    var buffers: int
    var hashes: int
    var otas: int
    var clients: int

    ghost function Held(): (int, int, int, int)
      reads this
    {
      (buffers, hashes, otas, clients)
    }
  }

  /** Copies `bytes` to the partition from `at` on (esp_ota_write with sequential writes). */
  method WriteFlash(flash: array<byte>, at: nat, bytes: seq<byte>)
    requires at + |bytes| <= flash.Length
    modifies flash
    ensures flash[..at + |bytes|] == old(flash[..at]) + bytes
    ensures flash[at + |bytes|..] == old(flash[at + |bytes|..])
  {
    forall i | 0 <= i < |bytes| {
      flash[at + i] := bytes[i];
    }
  }

  /** The first `n` passes went through and left their bytes in flash and their reports. */
  ghost predicate WentThrough(cmd: Command, w: World, n: nat, flash: array<byte>, reports: seq<int>)
    reads flash
  {
    && (forall k :: 0 <= k < n ==> GoodPass(cmd, w, k))
    && |Received(w, n)| <= cmd.size <= flash.Length
    && flash[..|Received(w, n)|] == Received(w, n)
    && reports == Published(Mark(0, w.startMs), SamplesOf(cmd, w, n))
  }

  /** Pass `k`, after which one chunk more is in flash and its percentage was considered. */
  method WritePass(cmd: Command, w: World, flash: array<byte>, k: nat, received: nat, bytes: Bytes, progress: Progress,
                   reports: seq<int>)
    returns (more: seq<int>)
    requires received == |Received(w, k)| && w.read(k) == Chunk(bytes)
    requires GoodPass(cmd, w, k) && WentThrough(cmd, w, k, flash, reports)
    requires progress.Last() == MarkAfter(Mark(0, w.startMs), SamplesOf(cmd, w, k))
    modifies flash, progress
    ensures WentThrough(cmd, w, k + 1, flash, more)
    ensures progress.Last() == MarkAfter(Mark(0, w.startMs), SamplesOf(cmd, w, k + 1))
    ensures flash[|Received(w, k + 1)|..] == old(flash[|Received(w, k + 1)|..])
  {
    WriteFlash(flash, received, bytes);
    var pct := Percent(received + |bytes|, cmd.size);
    var publish := progress.ShouldPublish(pct, w.clockMs(k));
    more := if publish then reports + [pct] else reports;
    OneMoreSample(Mark(0, w.startMs), SamplesOf(cmd, w, k), (pct, w.clockMs(k)));
  }

  /** The read loop: `result` is NoError when the server said that it delivered everything. */
  method ReadAll(cmd: Command, w: World, flash: array<byte>)
    returns (result: OtaError, received: nat, hashed: seq<byte>, reports: seq<int>, ghost passes: nat)
    requires cmd.size <= flash.Length
    modifies flash
    ensures WentThrough(cmd, w, passes, flash, reports)
    ensures result == NoError <==> w.read(passes) == NoMore(true)
    ensures result == NoError ==> hashed == Received(w, passes) && received == |hashed|
    ensures result != NoError ==> !GoodPass(cmd, w, passes) && result != Sha256Mismatch
    ensures result != NoError ==> BrokenOffBy(cmd, w, passes, result)
    ensures result == SizeMismatch <==> TooMuch(cmd, w, passes)
    ensures flash[|Received(w, passes)|..] == old(flash[|Received(w, passes)|..])
  {
    var progress := new Progress(w.startMs);
    result, received, hashed, reports, passes := Internal, 0, [], [], 0;
    var k: nat := 0;
    while true
      invariant WentThrough(cmd, w, k, flash, reports)
      invariant hashed == Received(w, k) && received == |hashed|
      invariant flash[|Received(w, k)|..] == old(flash[|Received(w, k)|..])
      invariant fresh(progress) && progress.Last() == MarkAfter(Mark(0, w.startMs), SamplesOf(cmd, w, k))
      invariant passes == k
      decreases cmd.size - received
    {
      match w.read(k) {
        case Broke =>
          result := w.httpFault;
          return;
        case NoMore(complete) =>
          if complete {
            result := NoError;
          } else {
            result := w.httpFault;
          }
          return;
        case Chunk(bytes) =>
          if received + |bytes| > cmd.size {
            result := SizeMismatch;
            return;
          }
          if !w.hashUpdateOk(k) {
            result := Internal;
            return;
          }
          hashed := hashed + bytes;
          if w.writeFault(k).Some? {
            result := w.writeFault(k).value;
            return;
          }
          reports := WritePass(cmd, w, flash, k, received, bytes, progress, reports);
          received := received + |bytes|;
          k := k + 1;
          passes := k;
      }
    }
  }

  method CheckImage(cmd: Command, w: World, received: nat, hashed: seq<byte>) returns (verdict: OtaError)
    ensures verdict == Internal <==> !w.hashFinishOk
    ensures verdict == NoError <==> w.hashFinishOk && received == cmd.size && Spells(cmd.sha256, w.sha256(hashed))
    ensures verdict == SizeMismatch <==> w.hashFinishOk && received != cmd.size
    ensures verdict == Sha256Mismatch <==> w.hashFinishOk && received == cmd.size && !Spells(cmd.sha256, w.sha256(hashed))
  {
    if !w.hashFinishOk {
      return Internal;
    }
    var hex := new char[2 * DIGEST_BYTES + 1];
    HexFromDigest(w.sha256(hashed), hex);
    TextOfADigest(cmd.sha256, w.sha256(hashed));
    return VerifyImage(received, cmd.size, hex[..2 * DIGEST_BYTES], cmd.sha256);
  }

  /** The loop ended in pass `passes`, in an error. */
  predicate BreaksOff(cmd: Command, w: World, passes: nat) {
    && (forall k :: 0 <= k < passes ==> GoodPass(cmd, w, k))
    && !GoodPass(cmd, w, passes) && w.read(passes) != NoMore(true)
  }

  /** The loop ended in pass `passes`, with everything the server had. */
  predicate RunsOut(cmd: Command, w: World, passes: nat) {
    && (forall k :: 0 <= k < passes ==> GoodPass(cmd, w, k))
    && w.read(passes) == NoMore(true)
  }

  lemma NothingWithoutAConnection(cmd: Command, w: World)
    requires !Connects(cmd, w)
    ensures forall n :: !Delivers(cmd, w, n)
  {
  }

  lemma ABrokenPassDeliversNothing(cmd: Command, w: World, passes: nat)
    requires BreaksOff(cmd, w, passes)
    ensures forall n :: !Delivers(cmd, w, n)
  {
    forall n: nat
      ensures !Delivers(cmd, w, n)
    {
      forall k | 0 <= k < passes
        ensures w.read(k).Chunk?
      {
        assert GoodPass(cmd, w, k);
      }
    }
  }

  lemma TheEndIsUnique(cmd: Command, w: World, passes: nat)
    requires RunsOut(cmd, w, passes)
    ensures forall n :: Delivers(cmd, w, n) ==> n == passes
  {
    forall n: nat | Delivers(cmd, w, n)
      ensures n == passes
    {
      forall k | 0 <= k < passes || 0 <= k < n
        ensures w.read(k).Chunk?
      {
        assert GoodPass(cmd, w, k);
      }
    }
  }

  /** `result` is what a connected download comes to whose loop made `passes` passes. */
  ghost predicate Judged(cmd: Command, w: World, passes: nat, result: OtaError) {
    && (if result == NoError then Delivers(cmd, w, passes)
        else FailsFor(cmd, w, passes, result) && forall n :: !Delivers(cmd, w, n))
    && (result == Sha256Mismatch ==> |Received(w, passes)| == cmd.size && !Spells(cmd.sha256, w.sha256(Received(w, passes))))
    && (result == SizeMismatch ==>
          TooMuch(cmd, w, passes) || (w.read(passes) == NoMore(true) && |Received(w, passes)| != cmd.size))
  }

  /** Which of the hash, the OTA handle and the client are open. */
  datatype Open = Open(hash: bool, ota: bool, client: bool)

  /** `held` and what is open besides. */
  function With(held: (int, int, int, int), open: Open): (int, int, int, int) {
    (held.0, held.1 + if open.hash then 1 else 0, held.2 + if open.ota then 1 else 0, held.3 + if open.client then 1 else 0)
  }

  /** The checks after the loop; the connection and the hash are given back on the way. */
  method CheckAndEnd(cmd: Command, w: World, received: nat, hashed: seq<byte>, ledger: Ledger, ghost held: (int, int, int, int))
    returns (result: OtaError, open: Open)
    requires ledger.Held() == With(held, Open(true, true, true))
    modifies ledger
    ensures result == NoError <==>
            w.hashFinishOk && received == cmd.size && Spells(cmd.sha256, w.sha256(hashed)) && w.endFault.None?
    ensures result == SizeMismatch ==> received != cmd.size
    ensures result == Sha256Mismatch ==> received == cmd.size && !Spells(cmd.sha256, w.sha256(hashed))
    ensures !w.hashFinishOk ==> result == Internal
    ensures w.hashFinishOk && received != cmd.size ==> result == SizeMismatch
    ensures w.hashFinishOk && received == cmd.size && !Spells(cmd.sha256, w.sha256(hashed)) ==> result == Sha256Mismatch
    ensures w.hashFinishOk && received == cmd.size && Spells(cmd.sha256, w.sha256(hashed)) && w.endFault.Some? ==>
              result == w.endFault.value
    ensures ledger.Held() == With(held, open)
  {
    ledger.clients := ledger.clients - 1;
    ledger.hashes := ledger.hashes - 1;
    var verdict := CheckImage(cmd, w, received, hashed);
    if verdict != NoError {
      return verdict, Open(false, true, false);
    }
    ledger.otas := ledger.otas - 1;
    if w.endFault.Some? {
      return w.endFault.value, Open(false, false, false);
    }
    return NoError, Open(false, false, false);
  }

  /** The connection and the start of the flashing, once the buffer and the hash are there. */
  method ConnectAndBegin(cmd: Command, w: World, ledger: Ledger, ghost held: (int, int, int, int))
    returns (result: OtaError, open: Open)
    requires w.bufferOk && w.hashOk && ledger.Held() == With(held, Open(true, false, false))
    modifies ledger
    ensures result == NoError <==> Connects(cmd, w)
    ensures result != NoError ==> RefusedFor(cmd, w, result)
    ensures result == SizeMismatch ==> w.contentLength > 0 && w.contentLength != cmd.size
    ensures result != Sha256Mismatch
    ensures ledger.Held() == With(held, open) && (result == NoError ==> open == Open(true, true, true))
  {
    open := Open(true, false, false);
    if !w.clientOk {
      return NoMemory, open;
    }
    ledger.clients := ledger.clients + 1;
    open := Open(true, false, true);
    if !w.openOk || w.contentLength < 0 || w.status != 200 {
      return w.httpFault, open;
    }
    if w.contentLength > 0 && w.contentLength != cmd.size {
      return SizeMismatch, open;
    }
    if !w.beginOk {
      return FlashError, open;
    }
    ledger.otas := ledger.otas + 1;
    return NoError, Open(true, true, true);
  }

  /** The download from the first read on. */
  method ReadAndCheck(cmd: Command, w: World, flash: array<byte>, ledger: Ledger, ghost held: (int, int, int, int))
    returns (result: OtaError, reports: seq<int>, open: Open, ghost passes: nat)
    requires cmd.size <= flash.Length && Connects(cmd, w) && ledger.Held() == With(held, Open(true, true, true))
    modifies flash, ledger
    ensures Judged(cmd, w, passes, result)
    ensures ledger.Held() == With(held, open)
    ensures WentThrough(cmd, w, passes, flash, reports)
    ensures flash[|Received(w, passes)|..] == old(flash[|Received(w, passes)|..])
  {
    var received, hashed;
    result, received, hashed, reports, passes := ReadAll(cmd, w, flash);
    open := Open(true, true, true);
    if result == NoError {
      TheEndIsUnique(cmd, w, passes);
      result, open := CheckAndEnd(cmd, w, received, hashed, ledger, held);
      assert result == NoError <==> Delivers(cmd, w, passes);
    } else {
      ABrokenPassDeliversNothing(cmd, w, passes);
    }
  }

  /** The end of the function, where every path comes by. */
  method GiveBack(ledger: Ledger, open: Open, ghost held: (int, int, int, int))
    requires ledger.Held() == With(held, open)
    modifies ledger
    ensures ledger.Held() == held
  {
    if open.hash {
      ledger.hashes := ledger.hashes - 1;
    }
    if open.ota {
      ledger.otas := ledger.otas - 1;
    }
    if open.client {
      ledger.clients := ledger.clients - 1;
    }
  }

  /**
   Downloads the image of `cmd` into `flash`. `passes` is how many passes of the loop went through, `reports`
   the percentages that were reported after the initial 0. The image is accepted exactly when the server
   delivered what the command announced and nothing failed on the way, and then flash holds it; and whatever
   happens, everything that was taken is given back.
   */
  method DownloadAndFlash(cmd: Command, w: World, flash: array<byte>, ledger: Ledger)
    returns (result: OtaError, reports: seq<int>, ghost passes: nat)
    requires cmd.size <= flash.Length
    modifies flash, ledger
    ensures ledger.Held() == old(ledger.Held())
    ensures result == NoError <==> exists n :: Delivers(cmd, w, n)
    ensures result == NoError ==> Delivers(cmd, w, passes) && flash[..cmd.size] == Received(w, passes)
    ensures result == Sha256Mismatch ==> |Received(w, passes)| == cmd.size && !Spells(cmd.sha256, w.sha256(Received(w, passes)))
    ensures result == SizeMismatch ==>
              || (w.contentLength > 0 && w.contentLength != cmd.size) || TooMuch(cmd, w, passes)
              || (w.read(passes) == NoMore(true) && |Received(w, passes)| != cmd.size)
    ensures !Connects(cmd, w) ==> passes == 0
    ensures result != NoError ==> FailsFor(cmd, w, passes, result)
    ensures WentThrough(cmd, w, passes, flash, reports)
    ensures flash[|Received(w, passes)|..] == old(flash[|Received(w, passes)|..])
  {
    result, reports, passes := Internal, [], 0;
    if !Connects(cmd, w) {
      NothingWithoutAConnection(cmd, w);
    }
    if !w.bufferOk {
      return NoMemory, [], 0;
    }
    ledger.buffers := ledger.buffers + 1;
    if !w.hashOk {
      ledger.buffers := ledger.buffers - 1;
      return Internal, [], 0;
    }
    ledger.hashes := ledger.hashes + 1;
    ghost var held := ledger.Held();
    held := (held.0, held.1 - 1, held.2, held.3);
    var open;
    result, open := ConnectAndBegin(cmd, w, ledger, held);
    if result == NoError {
      result, reports, open, passes := ReadAndCheck(cmd, w, flash, ledger, held);
    }
    GiveBack(ledger, open, held);
    ledger.buffers := ledger.buffers - 1;
  }

  // ---------------------------------------------------------------- what an accepted download means

  /** Only one content passes: an image of that size whose digest has that text. */
  lemma AcceptedIsTheImage(cmd: Command, w: World, n: nat, image: seq<byte>)
    requires Delivers(cmd, w, n) && |image| == cmd.size && Spells(cmd.sha256, w.sha256(image))
    ensures w.sha256(Received(w, n)) == w.sha256(image) && |Received(w, n)| == |image|
  {
    TextOfADigest(cmd.sha256, w.sha256(Received(w, n)));
    TextOfADigest(cmd.sha256, w.sha256(image));
    HexIsInjective(w.sha256(Received(w, n)), w.sha256(image));
  }

  predicate ClockAdvances(w: World, n: nat) {
    && (n > 0 ==> w.startMs <= w.clockMs(0))
    && forall i, j :: 0 <= i < j < n ==> w.clockMs(i) <= w.clockMs(j)
  }

  lemma {:induction false} SamplesAre(cmd: Command, w: World, n: nat)
    ensures |SamplesOf(cmd, w, n)| == n
    ensures forall i :: 0 <= i < n ==> SamplesOf(cmd, w, n)[i] == (Percent(|Received(w, i + 1)|, cmd.size), w.clockMs(i))
  {
    if n > 0 {
      SamplesAre(cmd, w, n - 1);
    }
  }

  /** What the download reports obeys the bounds of ProgressOfADownload. */
  lemma DownloadIsADownload(cmd: Command, w: World, n: nat) returns (got: seq<nat>)
    requires (forall k :: 0 <= k < n ==> GoodPass(cmd, w, k)) && ClockAdvances(w, n)
    ensures OfADownload(cmd.size, w.startMs, got, SamplesOf(cmd, w, n))
    ensures n > 0 ==> cmd.size > 0 && got[|got| - 1] == |Received(w, n)|
  {
    got := seq(n, i requires 0 <= i < n => |Received(w, i + 1)|);
    SamplesAre(cmd, w, n);
    forall i, j | 0 <= i < j < n
      ensures got[i] <= got[j]
    {
      ReceivedGrows(w, i + 1, j + 1);
    }
    forall i | 0 <= i < n
      ensures got[i] <= cmd.size
    {
      assert GoodPass(cmd, w, i);
    }
    if n > 0 {
      assert GoodPass(cmd, w, n - 1);
    }
  }
}
