/** The checksum list of a backup: write_sums and check_sums in scripts/backup_manifest.py. */
module BackupSums {
  import opened Names
  import opened Wrappers

  predicate IsHex(s: string) {
    forall i :: 0 <= i < |s| ==> '0' <= s[i] <= '9' || 'a' <= s[i] <= 'f'
  }

  lemma HexDigitsAre(c: char)
    ensures IsHex([c]) <==> c in "0123456789abcdef"
  {
    var digits := "0123456789abcdef";
    assert digits[0] == '0' && digits[1] == '1' && digits[2] == '2' && digits[3] == '3' && digits[4] == '4';
    assert digits[5] == '5' && digits[6] == '6' && digits[7] == '7' && digits[8] == '8' && digits[9] == '9';
    assert digits[10] == 'a' && digits[11] == 'b' && digits[12] == 'c';
    assert digits[13] == 'd' && digits[14] == 'e' && digits[15] == 'f';
    assert IsHex([c]) <==> '0' <= [c][0] <= '9' || 'a' <= [c][0] <= 'f';
  }

  const ZEROS: string := seq(64, _ => '0')

  type Digest = s: string | |s| == 64 && IsHex(s) witness ZEROS

  /** The regular files of a backup by their path in it; contents as text. */
  type Backup = b: map<string, string> | "" !in b witness map[]

  const SUMS_FILE := "SHA256SUMS"
  const VERIFICATION_FILE := "verificacion.json"

  /** The files that must be listed. */
  function Artifacts(b: Backup): set<string> {
    b.Keys - {SUMS_FILE, VERIFICATION_FILE}
  }

  lemma ArtifactsAre(b: Backup, name: string)
    ensures name in Artifacts(b) <==> name in b && name != "SHA256SUMS" && name != "verificacion.json"
  {
  }

  // ---------------------------------------------------------------- lines

  /** What str.splitlines() takes for the end of a line. */
  predicate IsBreak(c: char) {
    var n := c as int;
    0x0A <= n <= 0x0D || 0x1C <= n <= 0x1E || n == 0x85 || n == 0x2028 || n == 0x2029
  }

  /** Exactly these ten, as Python documents them. */
  lemma BreaksAre(c: char)
    ensures IsBreak(c) <==> c as int in {0x0A, 0x0B, 0x0C, 0x0D, 0x1C, 0x1D, 0x1E, 0x85, 0x2028, 0x2029}
  {
  }

  predicate OneLine(s: string) {
    forall i :: 0 <= i < |s| ==> !IsBreak(s[i])
  }

  /** The length of the first line. */
  function LineEnd(text: string): (n: nat)
    ensures n <= |text| && OneLine(text[..n])
    ensures n < |text| ==> IsBreak(text[n])
  {
    if text == "" || IsBreak(text[0]) then 0
    else
      var n := LineEnd(text[1..]) + 1;
      assert forall i :: 1 <= i < n ==> text[..n][i] == text[1..][..n - 1][i - 1];
      n
  }

  /** A carriage return and a line feed together end one line. */
  function BreakLength(text: string, n: nat): nat
    requires n < |text|
  {
    if text[n] == '\r' && n + 1 < |text| && text[n + 1] == '\n' then 2 else 1
  }

  function SplitLines(text: string): (lines: seq<string>)
    ensures forall i :: 0 <= i < |lines| ==> OneLine(lines[i])
    decreases |text|
  {
    if text == "" then []
    else
      var n := LineEnd(text);
      if n == |text| then [text] else [text[..n]] + SplitLines(text[n + BreakLength(text, n)..])
  }

  lemma {:induction false} LineEndsAt(text: string, k: nat)
    requires k < |text| && OneLine(text[..k]) && IsBreak(text[k])
    ensures LineEnd(text) == k
    decreases k
  {
    if k > 0 {
      assert text[..k][0] == text[0];
      assert text[1..][..k - 1] == text[..k][1..];
      LineEndsAt(text[1..], k - 1);
    }
  }

  /**
   The lines of a text: what stands before a break, whichever it is, and then those of the rest; a carriage
   return takes its line feed with it.
   */
  lemma LinesAre(line: string, c: char, rest: string)
    requires OneLine(line)
    ensures IsBreak(c) && !(c == '\r' && rest != "" && rest[0] == '\n') ==>
              SplitLines(line + [c] + rest) == [line] + SplitLines(rest)
    ensures SplitLines(line + "\r\n" + rest) == [line] + SplitLines(rest)
    ensures SplitLines(line) == if line == "" then [] else [line]
  {
    WholeLine(line);
    CarriageReturnLineFeed(line, rest);
    if IsBreak(c) && !(c == '\r' && rest != "" && rest[0] == '\n') {
      var text := line + [c] + rest;
      assert text[..|line|] == line && text[|line| + 1..] == rest;
      LineEndsAt(text, |line|);
    }
  }

  lemma CarriageReturnLineFeed(line: string, rest: string)
    requires OneLine(line)
    ensures SplitLines(line + "\r\n" + rest) == [line] + SplitLines(rest)
  {
    var text := line + "\r\n" + rest;
    assert text[..|line|] == line && text[|line| + 2..] == rest && text[|line|] == '\r' && text[|line| + 1] == '\n';
    LineEndsAt(text, |line|);
  }

  lemma {:induction false} WholeLine(line: string)
    requires OneLine(line)
    ensures LineEnd(line) == |line| && SplitLines(line) == if line == "" then [] else [line]
  {
    if line != "" {
      WholeLine(line[1..]);
    }
  }

  lemma FirstLine(line: string, rest: string)
    requires OneLine(line)
    ensures SplitLines(line + "\n" + rest) == [line] + SplitLines(rest)
  {
    var text := line + "\n" + rest;
    assert text[..|line|] == line && text[|line| + 1..] == rest;
    LineEndsAt(text, |line|);
  }

  /** One line of the list: the digest, two spaces and the name. */
  function Entry(line: string): Option<(string, Digest)> {
    if |line| > 66 && IsHex(line[..64]) && line[64] == ' ' && line[65] == ' '
    then Some((line[66..], line[..64]))
    else None
  }

  function EntryText(name: string, digest: Digest): string {
    digest + "  " + name
  }

  lemma EntryReadsBack(name: string, digest: Digest)
    requires name != ""
    ensures Entry(EntryText(name, digest)) == Some((name, digest))
  {
    var line := EntryText(name, digest);
    assert line[..64] == digest && line[66..] == name;
  }

  /** A line is taken exactly when it is a digest, two spaces and a name; any other one is refused. */
  lemma EntryExactly(line: string)
    ensures Entry(line).Some? <==> exists name: string, digest: Digest :: name != "" && line == digest + "  " + name
    ensures Entry(line).Some? ==>
              var (name, digest) := Entry(line).value;
              name != "" && line == digest + "  " + name
  {
    if Entry(line).Some? {
      var (name, digest) := Entry(line).value;
      assert line == line[..64] + [line[64], line[65]] + line[66..];
      assert line == digest + "  " + name;
    }
    if name: string, digest: Digest :| name != "" && line == digest + "  " + name {
      EntryReadsBack(name, digest);
    }
  }

  // ---------------------------------------------------------------- what is listed

  /** The digest each name is listed with; the last line for a name counts. */
  function Listed(lines: seq<string>): map<string, Digest> {
    if lines == [] then map[]
    else
      var before := Listed(lines[..|lines| - 1]);
      match Entry(lines[|lines| - 1])
      case None => before
      case Some(e) => before[e.0 := e.1]
  }

  datatype Reason =
    | NoSums
    | BadLine(number: nat)
    | MissingFile(name: string)
    | Changed(name: string)
    | NotListed(name: string)

  /** Why the check fails, one reason for each thing that is wrong. */
  predicate IsReason(b: Backup, sha: string -> Digest, r: Reason) {
    if SUMS_FILE !in b then r == NoSums
    else
      var lines := SplitLines(b[SUMS_FILE]);
      var listed := Listed(lines);
      match r
      case NoSums => false
      case BadLine(n) => 1 <= n <= |lines| && Entry(lines[n - 1]).None?
      case MissingFile(name) => name in listed && name !in b
      case Changed(name) => name in listed && name in b && sha(b[name]) != listed[name]
      case NotListed(name) => name in Artifacts(b) && name !in listed
  }

  /** The bad lines among the first `n`. */
  function BadLines(lines: seq<string>, n: nat): seq<Reason>
    requires n <= |lines|
  {
    if n == 0 then [] else BadLines(lines, n - 1) + if Entry(lines[n - 1]).None? then [BadLine(n)] else []
  }

  /** What is wrong with the listed files of `order`. */
  function WrongFiles(b: Backup, sha: string -> Digest, listed: map<string, Digest>, order: seq<string>): seq<Reason>
    requires forall n :: n in order ==> n in listed
  {
    if order == [] then []
    else
      var name := order[|order| - 1];
      WrongFiles(b, sha, listed, order[..|order| - 1])
      + if name !in b then [MissingFile(name)] else if sha(b[name]) != listed[name] then [Changed(name)] else []
  }

  /** Reads the list; reasons in the order of the lines. */
  method ReadSums(lines: seq<string>) returns (reasons: seq<Reason>, listed: map<string, Digest>)
    ensures listed == Listed(lines)
    ensures forall r :: r in reasons <==> r.BadLine? && 1 <= r.number <= |lines| && Entry(lines[r.number - 1]).None?
    ensures reasons == BadLines(lines, |lines|)
  {
    reasons, listed := [], map[];
    for i := 0 to |lines|
      invariant listed == Listed(lines[..i])
      invariant forall r :: r in reasons <==> r.BadLine? && 1 <= r.number <= i && Entry(lines[r.number - 1]).None?
      invariant reasons == BadLines(lines, i)
    {
      assert lines[..i + 1][..i] == lines[..i];
      var entry := Entry(lines[i]);
      if entry.None? {
        reasons := reasons + [BadLine(i + 1)];
      } else {
        listed := listed[entry.value.0 := entry.value.1];
      }
    }
    assert lines[..|lines|] == lines;
  }

  predicate IsWrongFile(b: Backup, sha: string -> Digest, listed: map<string, Digest>, order: seq<string>, r: Reason) {
    || (r.MissingFile? && r.name in order && r.name !in b)
    || (r.Changed? && r.name in order && r.name in listed && r.name in b && sha(b[r.name]) != listed[r.name])
  }

  lemma {:induction false} WrongFilesAre(b: Backup, sha: string -> Digest, listed: map<string, Digest>, order: seq<string>,
                                         r: Reason)
    requires forall n :: n in order ==> n in listed
    ensures r in WrongFiles(b, sha, listed, order) <==> IsWrongFile(b, sha, listed, order, r)
    decreases |order|
  {
    if order != [] {
      WrongFilesAre(b, sha, listed, order[..|order| - 1], r);
    }
  }

  lemma OneFileMore(b: Backup, sha: string -> Digest, listed: map<string, Digest>, done: seq<string>, name: string)
    requires name in listed && forall n :: n in done ==> n in listed
    ensures WrongFiles(b, sha, listed, done + [name])
            == WrongFiles(b, sha, listed, done)
               + if name !in b then [MissingFile(name)] else if sha(b[name]) != listed[name] then [Changed(name)] else []
  {
    assert (done + [name])[..|done|] == done;
  }

  /** The listed files that are missing or changed, by name. */
  method CheckListed(b: Backup, sha: string -> Digest, listed: map<string, Digest>) returns (reasons: seq<Reason>)
    ensures reasons == WrongFiles(b, sha, listed, Sorted(listed.Keys))
  {
    reasons := [];
    var todo := listed.Keys;
    ghost var done: seq<string> := [];
    while todo != {}
      invariant todo <= listed.Keys
      invariant SortedSoFar(listed.Keys, done, todo)
      invariant reasons == WrongFiles(b, sha, listed, done)
      decreases |todo|
    {
      var name := Least(todo);
      OneNameMore(listed.Keys, done, todo, name);
      OneFileMore(b, sha, listed, done, name);
      todo, done := todo - {name}, done + [name];
      if name !in b {
        reasons := reasons + [MissingFile(name)];
      } else if sha(b[name]) != listed[name] {
        reasons := reasons + [Changed(name)];
      }
    }
    AllSorted(listed.Keys, done);
  }

  /** The artifacts that are not listed. */
  method CheckArtifacts(b: Backup, listed: map<string, Digest>) returns (reasons: seq<Reason>)
    ensures forall r :: r in reasons <==> r.NotListed? && r.name in Artifacts(b) && r.name !in listed
  {
    reasons := [];
    var todo := Artifacts(b);
    while todo != {}
      invariant todo <= Artifacts(b)
      invariant forall r :: r in reasons <==> r.NotListed? && r.name in Artifacts(b) && r.name !in listed && r.name !in todo
      decreases |todo|
    {
      var name :| name in todo;
      todo := todo - {name};
      if name !in listed {
        reasons := reasons + [NotListed(name)];
      }
    }
  }

  /** The reasons begin with those of the lines, go on with those of the listed files and end with the others. */
  ghost predicate InOrder(b: Backup, sha: string -> Digest, reasons: seq<Reason>)
    requires SUMS_FILE in b
  {
    var lines := SplitLines(b[SUMS_FILE]);
    var listed := Listed(lines);
    var first := BadLines(lines, |lines|) + WrongFiles(b, sha, listed, Sorted(listed.Keys));
    first <= reasons && forall i :: |first| <= i < |reasons| ==> reasons[i].NotListed?
  }

  /** check_sums: every reason and no other one; the order of the artifacts that are not listed is not modelled. */
  method CheckSums(b: Backup, sha: string -> Digest) returns (reasons: seq<Reason>)
    ensures forall r :: r in reasons <==> IsReason(b, sha, r)
    ensures SUMS_FILE in b ==> InOrder(b, sha, reasons)
  {
    if SUMS_FILE !in b {
      return [NoSums];
    }
    var bad, listed := ReadSums(SplitLines(b[SUMS_FILE]));
    var wrong := CheckListed(b, sha, listed);
    var unlisted := CheckArtifacts(b, listed);
    reasons := bad + wrong + unlisted;
    forall r
      ensures r in wrong <==> IsWrongFile(b, sha, listed, Sorted(listed.Keys), r)
    {
      WrongFilesAre(b, sha, listed, Sorted(listed.Keys), r);
    }
  }

  /** write_sums. */
  method WriteSums(b: Backup, sha: string -> Digest) returns (text: string, ghost order: seq<string>)
    ensures IsOrderOf(order, Artifacts(b)) && text == SumsText(b, sha, order)
  {
    text, order := "", [];
    var todo := Artifacts(b);
    while todo != {}
      invariant todo <= Artifacts(b)
      invariant IsOrderOf(order, Artifacts(b) - todo)
      invariant (forall n :: n in order ==> n in b) && text == SumsText(b, sha, order)
      decreases |todo|
    {
      var name :| name in todo;
      todo := todo - {name};
      text := text + EntryText(name, sha(b[name])) + "\n";
      ghost var before := order;
      order := order + [name];
      assert order[..|order| - 1] == before;
    }
  }

  /** Each name once. */
  ghost predicate IsOrderOf(order: seq<string>, names: set<string>) {
    (forall n :: n in order <==> n in names) && forall i, j :: 0 <= i < j < |order| ==> order[i] != order[j]
  }

  ghost function SumsText(b: Backup, sha: string -> Digest, order: seq<string>): string
    requires forall n :: n in order ==> n in b
  {
    if order == [] then ""
    else
      var name := order[|order| - 1];
      SumsText(b, sha, order[..|order| - 1]) + EntryText(name, sha(b[name])) + "\n"
  }

  // ---------------------------------------------------------------- when the check passes

  /** The list is well formed, every listed file has the listed digest, and every artifact is listed. */
  ghost predicate SumsDescribe(b: Backup, sha: string -> Digest) {
    && SUMS_FILE in b
    && var lines := SplitLines(b[SUMS_FILE]);
    && var listed := Listed(lines);
    && (forall i :: 0 <= i < |lines| ==> Entry(lines[i]).Some?)
    && (forall n :: n in listed ==> n in b && sha(b[n]) == listed[n])
    && Artifacts(b) <= listed.Keys
  }

  lemma NoReasonMeansDescribed(b: Backup, sha: string -> Digest)
    ensures (forall r :: !IsReason(b, sha, r)) <==> SumsDescribe(b, sha)
  {
    if SUMS_FILE !in b {
      assert IsReason(b, sha, NoSums);
    } else {
      var lines := SplitLines(b[SUMS_FILE]);
      var listed := Listed(lines);
      if forall r :: !IsReason(b, sha, r) {
        forall i | 0 <= i < |lines| ensures Entry(lines[i]).Some? {
          assert !IsReason(b, sha, BadLine(i + 1));
        }
        forall n | n in listed ensures n in b && sha(b[n]) == listed[n] {
          assert !IsReason(b, sha, MissingFile(n)) && !IsReason(b, sha, Changed(n));
        }
        forall n | n in Artifacts(b) ensures n in listed {
          assert !IsReason(b, sha, NotListed(n));
        }
      }
    }
  }

  /** check_sums as verify uses it. */
  method Passes(b: Backup, sha: string -> Digest) returns (ok: bool)
    ensures ok <==> SumsDescribe(b, sha)
  {
    var reasons := CheckSums(b, sha);
    NoReasonMeansDescribed(b, sha);
    assert reasons != [] ==> IsReason(b, sha, reasons[0]);
    ok := reasons == [];
  }

  /** Two backups that pass with the same list have the same artifacts, with the same digests. */
  lemma SameListSameArtifacts(a: Backup, b: Backup, sha: string -> Digest)
    requires SumsDescribe(a, sha) && SumsDescribe(b, sha) && a[SUMS_FILE] == b[SUMS_FILE]
    ensures Artifacts(a) == Artifacts(b)
    ensures forall n :: n in Artifacts(a) ==> sha(a[n]) == sha(b[n])
  {
  }

  // ---------------------------------------------------------------- right after write_sums

  lemma {:induction false} NamesAreOneLine(lines: seq<string>)
    requires forall i :: 0 <= i < |lines| ==> OneLine(lines[i])
    ensures forall n :: n in Listed(lines) ==> OneLine(n)
    decreases |lines|
  {
    if lines != [] {
      NamesAreOneLine(lines[..|lines| - 1]);
    }
  }

  ghost function LinesOf(b: Backup, sha: string -> Digest, order: seq<string>): seq<string>
    requires forall n :: n in order ==> n in b
  {
    if order == [] then []
    else
      var name := order[|order| - 1];
      LinesOf(b, sha, order[..|order| - 1]) + [EntryText(name, sha(b[name]))]
  }

  lemma ToTheRight(a: string, line: string, rest: string)
    ensures a + line + "\n" + rest == a + (line + "\n" + rest)
  {
  }

  lemma {:induction false} ListReadsBack(b: Backup, sha: string -> Digest, order: seq<string>, rest: string)
    requires forall n :: n in order ==> n in b && OneLine(n)
    ensures SplitLines(SumsText(b, sha, order) + rest) == LinesOf(b, sha, order) + SplitLines(rest)
    decreases |order|
  {
    if order == [] {
      assert SumsText(b, sha, order) + rest == rest;
    } else {
      var front, name := order[..|order| - 1], order[|order| - 1];
      var line := EntryText(name, sha(b[name]));
      EntryIsOneLine(name, sha(b[name]));
      ListReadsBack(b, sha, front, line + "\n" + rest);
      ToTheRight(SumsText(b, sha, front), line, rest);
      FirstLine(line, rest);
    }
  }

  lemma EntryIsOneLine(name: string, digest: Digest)
    requires OneLine(name)
    ensures OneLine(EntryText(name, digest))
  {
  }

  /** The names listed by the lines of `order`, with their digests. */
  lemma {:induction false} ListIsComplete(b: Backup, sha: string -> Digest, order: seq<string>)
    requires forall n :: n in order ==> n in b && n != ""
    ensures var lines := LinesOf(b, sha, order);
            && (forall i :: 0 <= i < |lines| ==> Entry(lines[i]).Some?)
            && (forall n :: n in Listed(lines) <==> n in order)
            && (forall n :: n in Listed(lines) ==> n in b && Listed(lines)[n] == sha(b[n]))
    decreases |order|
  {
    if order != [] {
      var front, name := order[..|order| - 1], order[|order| - 1];
      assert order == front + [name];
      assert forall n :: n in front ==> n in order;
      ListIsComplete(b, sha, front);
      EntryReadsBack(name, sha(b[name]));
      var lines := LinesOf(b, sha, order);
      assert lines[..|lines| - 1] == LinesOf(b, sha, front);
    }
  }

  /** The backup with the list that write_sums writes. */
  ghost predicate Written(b: Backup, sha: string -> Digest, order: seq<string>, after: Backup) {
    && IsOrderOf(order, Artifacts(b)) && (forall n :: n in order ==> n in b)
    && after == b[SUMS_FILE := SumsText(b, sha, order)]
  }

  lemma TheWrittenLines(b: Backup, sha: string -> Digest, order: seq<string>)
    requires forall n :: n in order ==> n in b && n != "" && OneLine(n)
    ensures var lines := SplitLines(SumsText(b, sha, order));
            && (forall i :: 0 <= i < |lines| ==> Entry(lines[i]).Some?)
            && (forall n :: n in Listed(lines) <==> n in order)
            && (forall n :: n in Listed(lines) ==> n in b && Listed(lines)[n] == sha(b[n]))
  {
    ListReadsBack(b, sha, order, "");
    assert SumsText(b, sha, order) + "" == SumsText(b, sha, order);
    assert LinesOf(b, sha, order) + [] == LinesOf(b, sha, order);
    ListIsComplete(b, sha, order);
  }

  lemma PlainNamesPass(b: Backup, sha: string -> Digest, order: seq<string>, after: Backup)
    requires Written(b, sha, order, after) && forall n :: n in Artifacts(b) ==> OneLine(n)
    ensures SumsDescribe(after, sha)
  {
    forall n | n in order ensures n in b && OneLine(n) && n != "" {
      assert n in Artifacts(b);
    }
    TheWrittenLines(b, sha, order);
    assert Artifacts(after) == Artifacts(b);
    forall n | n in order ensures n in after && after[n] == b[n] {
      assert n in Artifacts(b);
    }
  }

  /** Right after the list was written the check passes, exactly when no artifact has a line break in its name. */
  lemma PassesRightAfterWriting(b: Backup, sha: string -> Digest, order: seq<string>, after: Backup)
    requires Written(b, sha, order, after)
    ensures SumsDescribe(after, sha) <==> forall n :: n in Artifacts(b) ==> OneLine(n)
  {
    if forall n :: n in Artifacts(b) ==> OneLine(n) {
      PlainNamesPass(b, sha, order, after);
    } else {
      NamesAreOneLine(SplitLines(after[SUMS_FILE]));
      assert Artifacts(after) == Artifacts(b);
    }
  }
}
