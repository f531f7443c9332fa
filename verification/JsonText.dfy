/**
 JSON text as the firmware writes it (w_string and w_int in ota_logic.c) and as RFC 8259 reads it.
 A C string is a sequence of the characters 1..255, one per byte.
 */
module JsonText {
  import opened Wrappers

  predicate IsCString(s: string) {
    forall i :: 0 <= i < |s| ==> 0 < s[i] as int < 256
  }

  // ---------------------------------------------------------------- what the writer emits

  /** The table of the source, and the character it holds for each value. */
  const HEX := "0123456789abcdef"

  function HexChar(n: nat): char
    requires n < 16
  {
    if n < 10 then ('0' as int + n) as char else ('a' as int + n - 10) as char
  }

  lemma HexTable(n: nat)
    requires n < 16
    ensures HEX[n] == HexChar(n)
  {
    assert HEX[..10] == "0123456789" && HEX[10..] == "abcdef";
    if n < 10 {
      assert HEX[n] == HEX[..10][n];
    } else {
      assert HEX[n] == HEX[10..][n - 10];
    }
  }

  function EscapedChar(c: char): string
    requires c as int < 256
  {
    if c == '"' || c == '\\' then ['\\', c]
    else if c == '\n' then "\\n"
    else if c == '\r' then "\\r"
    else if c == '\t' then "\\t"
    else if c < ' ' then "\\u00" + [HexChar(c as int / 16), HexChar(c as int % 16)]
    else [c]
  }

  function Escaped(s: string): string
    requires IsCString(s)
  {
    if s == "" then "" else EscapedChar(s[0]) + Escaped(s[1..])
  }

  function Quoted(s: string): string
    requires IsCString(s)
  {
    "\"" + Escaped(s) + "\""
  }

  function DecimalOfNat(n: nat): string {
    if n < 10 then [HexChar(n)] else DecimalOfNat(n / 10) + [HexChar(n % 10)]
  }

  /** What "%d" prints. */
  function Decimal(v: int): string {
    if v < 0 then "-" + DecimalOfNat(-v) else DecimalOfNat(v)
  }

  predicate Plain(s: string) {
    forall i :: 0 <= i < |s| ==> ' ' <= s[i] && s[i] as int < 256 && s[i] != '"' && s[i] != '\\'
  }

  lemma {:induction false} PlainNeedsNoEscape(s: string)
    requires Plain(s)
    ensures IsCString(s) && Escaped(s) == s
  {
    if s != "" {
      PlainNeedsNoEscape(s[1..]);
      assert EscapedChar(s[0]) == [s[0]];
    }
  }

  // ---------------------------------------------------------------- section 7 of RFC 8259

  function HexDigit(c: char): (d: int)
    ensures -1 <= d < 16
  {
    if '0' <= c <= '9' then c as int - '0' as int
    else if 'a' <= c <= 'f' then c as int - 'a' as int + 10
    else if 'A' <= c <= 'F' then c as int - 'A' as int + 10
    else -1
  }

  /** The characters of a string after its opening quotation mark, up to and with the closing one. */
  predicate LegalTail(t: string)
    decreases |t|
  {
    if t == "" then false
    else if t[0] == '"' then |t| == 1
    else if t[0] == '\\' then
      if |t| >= 6 && t[1] == 'u' && forall i :: 2 <= i < 6 ==> 0 <= HexDigit(t[i]) then LegalTail(t[6..])
      else |t| >= 2 && t[1] in "\"\\/bfnrt" && LegalTail(t[2..])
    else ' ' <= t[0] && LegalTail(t[1..])
  }

  predicate LegalString(t: string) {
    t != "" && t[0] == '"' && LegalTail(t[1..])
  }

  /** The meaning of the character after a backslash, other than 'u'. */
  function Unescaped(c: char): Option<char> {
    match c
    case '"' => Some('"')
    case '\\' => Some('\\')
    case '/' => Some('/')
    case 'b' => Some(8 as char)
    case 'f' => Some(12 as char)
    case 'n' => Some('\n')
    case 'r' => Some('\r')
    case 't' => Some('\t')
    case _ => None
  }

  datatype Parsed<+T> = Bad | Good(value: T, rest: string)

  /**
   The characters up to the closing quotation mark. A \u escape is decoded when it names an ASCII
   character other than NUL.
   */
  function ParseTail(t: string): (p: Parsed<string>)
    ensures p.Good? ==> |p.rest| < |t|
    decreases |t|
  {
    if t == "" then Bad
    else if t[0] == '"' then Good("", t[1..])
    else if t[0] == '\\' then
      if |t| < 2 then Bad
      else if t[1] == 'u' then
        if |t| < 6 || exists i :: 2 <= i < 6 && HexDigit(t[i]) < 0 then Bad
        else
          var code := ((HexDigit(t[2]) * 16 + HexDigit(t[3])) * 16 + HexDigit(t[4])) * 16 + HexDigit(t[5]);
          if 0 < code < 128 then Prepend(code as char, ParseTail(t[6..])) else Bad
      else
        var c := Unescaped(t[1]);
        if c.None? then Bad else Prepend(c.value, ParseTail(t[2..]))
    else if t[0] < ' ' then Bad
    else Prepend(t[0], ParseTail(t[1..]))
  }

  function Prepend(c: char, p: Parsed<string>): Parsed<string> {
    match p
    case Bad => Bad
    case Good(s, rest) => Good([c] + s, rest)
  }

  function ParseString(t: string): (p: Parsed<string>)
    ensures p.Good? ==> |p.rest| < |t|
  {
    if t == "" || t[0] != '"' then Bad else ParseTail(t[1..])
  }

  lemma EscapesAre(c: char)
    ensures Unescaped(c).Some? <==> c in "\"\\/bfnrt"
  {
    var all := "\"\\/bfnrt";
    assert all[0] == '"' && all[1] == '\\' && all[2] == '/' && all[3] == 'b' && all[4] == 'f';
    assert all[5] == 'n' && all[6] == 'r' && all[7] == 't';
  }

  /** What is read to its end as the tail of a string is one of the grammar. */
  lemma {:induction false} ReadIsLegal(t: string)
    requires ParseTail(t).Good? && ParseTail(t).rest == ""
    ensures LegalTail(t)
    decreases |t|
  {
    if t[0] == '\\' {
      if t[1] == 'u' {
        ReadIsLegal(t[6..]);
      } else {
        EscapesAre(t[1]);
        ReadIsLegal(t[2..]);
      }
    } else if t[0] != '"' {
      ReadIsLegal(t[1..]);
    }
  }

  lemma EscapedCharIsLegal(c: char, t: string)
    requires 0 < c as int < 256 && LegalTail(t)
    ensures LegalTail(EscapedChar(c) + t)
  {
    var e := EscapedChar(c);
    var all := e + t;
    if |e| == 6 {
      assert all[6..] == t;
      assert c as int / 16 < 2;
    } else if |e| == 2 {
      assert all[2..] == t && all[1] == e[1];
      assert e[1] in "\"\\/bfnrt" by {
        assert "\"\\/bfnrt"[0] == '"' && "\"\\/bfnrt"[1] == '\\' && "\"\\/bfnrt"[5] == 'n';
        assert "\"\\/bfnrt"[6] == 'r' && "\"\\/bfnrt"[7] == 't';
      }
    } else {
      assert all[1..] == t;
    }
  }

  lemma {:induction false} EscapedIsLegal(s: string)
    requires IsCString(s)
    ensures LegalTail(Escaped(s) + "\"")
  {
    if s == "" {
      assert Escaped(s) + "\"" == "\"";
    } else {
      EscapedIsLegal(s[1..]);
      EscapedCharIsLegal(s[0], Escaped(s[1..]) + "\"");
      assert Escaped(s) + "\"" == EscapedChar(s[0]) + (Escaped(s[1..]) + "\"");
    }
  }

  /** Whatever the bytes, the writer emits a string of the grammar of section 7 of RFC 8259. */
  lemma QuotedIsLegal(s: string)
    requires IsCString(s)
    ensures LegalString(Quoted(s))
  {
    EscapedIsLegal(s);
    assert Quoted(s)[1..] == Escaped(s) + "\"";
  }

  lemma HexReadsBack(n: nat)
    requires n < 16
    ensures HexDigit(HexChar(n)) == n
  {
  }

  lemma UnicodeReadsBack(n: nat, t: string)
    requires 0 < n < 32
    ensures ParseTail("\\u00" + [HexChar(n / 16), HexChar(n % 16)] + t) == Prepend(n as char, ParseTail(t))
  {
    var all := "\\u00" + [HexChar(n / 16), HexChar(n % 16)] + t;
    assert all[0] == '\\' && all[1] == 'u' && all[2] == '0' && all[3] == '0';
    assert all[4] == HexChar(n / 16) && all[5] == HexChar(n % 16) && all[6..] == t;
    HexReadsBack(n / 16);
    HexReadsBack(n % 16);
  }

  lemma BackslashReadsBack(b: char, c: char, t: string)
    requires Unescaped(b) == Some(c)
    ensures ParseTail(['\\', b] + t) == Prepend(c, ParseTail(t))
  {
    var all := ['\\', b] + t;
    assert all[0] == '\\' && all[1] == b && all[2..] == t;
  }

  lemma PlainReadsBack(c: char, t: string)
    requires ' ' <= c && c != '"' && c != '\\'
    ensures ParseTail([c] + t) == Prepend(c, ParseTail(t))
  {
    assert ([c] + t)[1..] == t;
  }

  lemma EscapedCharReadsBack(c: char, t: string)
    requires 0 < c as int < 256
    ensures ParseTail(EscapedChar(c) + t) == Prepend(c, ParseTail(t))
  {
    var e := EscapedChar(c);
    if |e| == 6 {
      UnicodeReadsBack(c as int, t);
    } else if |e| == 2 {
      BackslashReadsBack(e[1], c, t);
      assert e == ['\\', e[1]];
    } else {
      PlainReadsBack(c, t);
    }
  }

  lemma OneEscapeFirst(s: string, rest: string)
    requires IsCString(s) && s != ""
    ensures Escaped(s) + "\"" + rest == EscapedChar(s[0]) + (Escaped(s[1..]) + "\"" + rest)
  {
  }

  lemma {:induction false} EscapedReadsBack(s: string, rest: string)
    requires IsCString(s)
    ensures ParseTail(Escaped(s) + "\"" + rest) == Good(s, rest)
  {
    if s == "" {
      assert Escaped(s) + "\"" + rest == "\"" + rest;
    } else {
      var t := Escaped(s[1..]) + "\"" + rest;
      EscapedReadsBack(s[1..], rest);
      EscapedCharReadsBack(s[0], t);
      OneEscapeFirst(s, rest);
      assert [s[0]] + s[1..] == s;
    }
  }

  /** ... and reading it gives the bytes back, whatever follows it. */
  lemma QuotedReadsBack(s: string, rest: string)
    requires IsCString(s)
    ensures ParseString(Quoted(s) + rest) == Good(s, rest)
  {
    EscapedReadsBack(s, rest);
    assert (Quoted(s) + rest)[1..] == Escaped(s) + "\"" + rest;
  }

  // ---------------------------------------------------------------- integers

  predicate StartsWithDigit(t: string) {
    t != "" && '0' <= t[0] <= '9'
  }

  function ParseDigits(t: string, acc: nat): (p: Parsed<nat>)
    ensures p.Good? && |p.rest| <= |t| && (StartsWithDigit(t) ==> |p.rest| < |t|)
    decreases |t|
  {
    if StartsWithDigit(t) then ParseDigits(t[1..], acc * 10 + (t[0] as int - '0' as int)) else Good(acc, t)
  }

  /** No digit follows a leading zero. */
  predicate LeadingZero(t: string) {
    t != "" && t[0] == '0' && StartsWithDigit(t[1..])
  }

  function ParseNat(t: string): (p: Parsed<nat>)
    ensures p.Good? ==> |p.rest| < |t|
  {
    if StartsWithDigit(t) && !LeadingZero(t) then ParseDigits(t, 0) else Bad
  }

  function Signed(sign: int, p: Parsed<nat>): Parsed<int> {
    match p case Bad => Bad case Good(n, rest) => Good(sign * n, rest)
  }

  /** An integer without fraction or exponent (section 6 of RFC 8259). */
  function ParseInt(t: string): (p: Parsed<int>)
    ensures p.Good? ==> |p.rest| < |t|
  {
    if t != "" && t[0] == '-' then Signed(-1, ParseNat(t[1..])) else Signed(1, ParseNat(t))
  }

  /** `acc` followed by the digits of `n`, read as one number. */
  function Shifted(acc: nat, n: nat): nat {
    if n < 10 then acc * 10 + n else Shifted(acc, n / 10) * 10 + n % 10
  }

  lemma Regroup(a: string, b: string, c: string)
    ensures a + b + c == a + (b + c)
  {
  }

  lemma OneMoreDigit(n: nat, acc: nat, rest: string)
    requires n < 10
    ensures StartsWithDigit([HexChar(n)] + rest)
    ensures ParseDigits([HexChar(n)] + rest, acc) == ParseDigits(rest, acc * 10 + n)
  {
    assert ([HexChar(n)] + rest)[1..] == rest;
  }

  lemma {:induction false} DecimalReadsBackFrom(n: nat, acc: nat, rest: string)
    ensures StartsWithDigit(DecimalOfNat(n) + rest)
    ensures ParseDigits(DecimalOfNat(n) + rest, acc) == ParseDigits(rest, Shifted(acc, n))
    decreases n
  {
    if n < 10 {
      OneMoreDigit(n, acc, rest);
    } else {
      var last := [HexChar(n % 10)] + rest;
      DecimalReadsBackFrom(n / 10, acc, last);
      Regroup(DecimalOfNat(n / 10), [HexChar(n % 10)], rest);
      OneMoreDigit(n % 10, Shifted(acc, n / 10), rest);
    }
  }

  lemma {:induction false} ShiftedFromZero(n: nat)
    ensures Shifted(0, n) == n
  {
    if n >= 10 {
      ShiftedFromZero(n / 10);
    }
  }

  predicate Begins(t: string, c: char, tail: string) {
    t != "" && t[0] == c && t[1..] == tail
  }

  lemma OneCharFirst(c: char, t: string, rest: string)
    ensures Begins([c] + t + rest, c, t + rest)
  {
    assert [c] + t + rest == [c] + (t + rest);
  }

  lemma {:induction false} DecimalBegins(n: nat)
    ensures StartsWithDigit(DecimalOfNat(n))
    ensures DecimalOfNat(n)[0] == '0' ==> n == 0
    decreases n
  {
    if n >= 10 {
      DecimalBegins(n / 10);
    }
  }

  lemma NoLeadingZero(n: nat, rest: string)
    requires !StartsWithDigit(rest)
    ensures !LeadingZero(DecimalOfNat(n) + rest)
  {
    DecimalBegins(n);
    if n == 0 {
      assert (DecimalOfNat(0) + rest)[1..] == rest;
    }
  }

  lemma NatReadsBack(n: nat, rest: string)
    requires !StartsWithDigit(rest)
    ensures StartsWithDigit(DecimalOfNat(n) + rest)
    ensures ParseNat(DecimalOfNat(n) + rest) == Good(n, rest)
  {
    DecimalReadsBackFrom(n, 0, rest);
    ShiftedFromZero(n);
    NoLeadingZero(n, rest);
  }

  lemma DecimalReadsBack(v: int, rest: string)
    requires !StartsWithDigit(rest)
    ensures ParseInt(Decimal(v) + rest) == Good(v, rest)
    ensures Decimal(v) != "" && Decimal(v)[0] != '"'
  {
    DecimalBegins(if v < 0 then -v else v);
    if v < 0 {
      OneCharFirst('-', DecimalOfNat(-v), rest);
      NatReadsBack(-v, rest);
    } else {
      NatReadsBack(v, rest);
    }
  }

  // ---------------------------------------------------------------- objects

  datatype Val = Text(text: string) | Number(n: int) | Object(members: Members)

  /** The members of an object in their order. */
  datatype Members = End | Member(key: string, val: Val, rest: Members)

  /** Members separated by commas up to and with the closing brace. An object has at least one. */
  function ParseMembers(t: string): (p: Parsed<Members>)
    ensures p.Good? ==> |p.rest| < |t|
    decreases |t|, 1
  {
    match ParseString(t)
    case Bad => Bad
    case Good(key, rest) =>
      if rest == "" || rest[0] != ':' then Bad
      else match ParseValue(rest[1..])
        case Bad => Bad
        case Good(v, after) =>
          if after == "" then Bad
          else if after[0] == '}' then Good(Member(key, v, End), after[1..])
          else if after[0] != ',' then Bad
          else match ParseMembers(after[1..])
            case Bad => Bad
            case Good(ms, end) => Good(Member(key, v, ms), end)
  }

  function ParseValue(t: string): (p: Parsed<Val>)
    ensures p.Good? ==> |p.rest| < |t|
    decreases |t|, 0
  {
    if t != "" && t[0] == '"' then
      match ParseString(t) case Bad => Bad case Good(s, rest) => Good(Text(s), rest)
    else if t != "" && t[0] == '{' then
      match ParseMembers(t[1..]) case Bad => Bad case Good(ms, rest) => Good(Object(ms), rest)
    else
      match ParseInt(t) case Bad => Bad case Good(n, rest) => Good(Number(n), rest)
  }

  /** One object and nothing after it. */
  function ParseObject(t: string): Option<Members> {
    if t == "" || t[0] != '{' then None
    else match ParseMembers(t[1..]) case Bad => None case Good(ms, rest) => if rest == "" then Some(ms) else None
  }

  /** The first member called `key` (cJSON_GetObjectItemCaseSensitive). */
  function Find(ms: Members, key: string): Option<Val> {
    match ms
    case End => None
    case Member(k, v, rest) => if k == key then Some(v) else Find(rest, key)
  }

  /** A key as it appears in the text; the keys of the contract need no escaping. */
  function KeyText(key: string): string {
    "\"" + key + "\":"
  }

  predicate WritableVal(v: Val) {
    match v
    case Text(s) => IsCString(s)
    case Number(_) => true
    case Object(ms) => ms.Member? && Writable(ms)
  }

  predicate Writable(ms: Members) {
    ms.Member? ==> Plain(ms.key) && WritableVal(ms.val) && Writable(ms.rest)
  }

  function ValText(v: Val): string
    requires WritableVal(v)
    decreases v, 0
  {
    match v
    case Text(s) => Quoted(s)
    case Number(n) => Decimal(n)
    case Object(ms) => "{" + MembersText(ms)
  }

  function MembersText(ms: Members): string
    requires ms.Member? && Writable(ms)
    decreases ms, 0
  {
    KeyText(ms.key) + ValText(ms.val) + Rest(ms.rest)
  }

  /** The members after the first, up to the closing brace. */
  function Rest(ms: Members): string
    requires Writable(ms)
    decreases ms, 1
  {
    if ms.End? then "}" else "," + MembersText(ms)
  }

  // ---------------------------------------------------------------- objects read back

  lemma AfterTheKey(key: string, rest: string)
    requires Plain(key)
    ensures ParseString(KeyText(key) + rest) == Good(key, ":" + rest)
  {
    PlainNeedsNoEscape(key);
    QuotedReadsBack(key, ":" + rest);
    assert KeyText(key) + rest == Quoted(key) + (":" + rest);
  }

  lemma DecimalStartsPlainly(n: int)
    ensures Decimal(n) != "" && Decimal(n)[0] != '"' && Decimal(n)[0] != '{'
  {
    DecimalBegins(if n < 0 then -n else n);
  }

  lemma NumberReadsBack(n: int, rest: string)
    requires !StartsWithDigit(rest)
    ensures ParseValue(Decimal(n) + rest) == Good(Number(n), rest)
  {
    DecimalReadsBack(n, rest);
    DecimalStartsPlainly(n);
  }

  lemma ObjectValueReadsBack(ms: Members, text: string, rest: string)
    requires ParseMembers(text + rest) == Good(ms, rest)
    ensures ParseValue("{" + text + rest) == Good(Object(ms), rest)
  {
    OneCharFirst('{', text, rest);
  }

  lemma OneMemberReadsBack(key: string, value: string, v: Val, more: string)
    requires Plain(key) && ParseValue(value + more) == Good(v, more)
    requires more != "" && (more[0] == '}' || more[0] == ',')
    ensures ParseMembers(KeyText(key) + (value + more)) ==
            if more[0] == '}' then Good(Member(key, v, End), more[1..])
            else match ParseMembers(more[1..]) case Bad => Bad case Good(ms, end) => Good(Member(key, v, ms), end)
  {
    AfterTheKey(key, value + more);
    assert (":" + (value + more))[1..] == value + more;
  }

  /** A value reads back as itself when no digit follows it. */
  lemma {:induction false} ValReadsBack(v: Val, rest: string)
    requires WritableVal(v) && !StartsWithDigit(rest)
    ensures ParseValue(ValText(v) + rest) == Good(v, rest)
    decreases v, 0
  {
    match v {
      case Text(s) => QuotedReadsBack(s, rest);
      case Number(n) => NumberReadsBack(n, rest);
      case Object(ms) =>
        MembersReadBack(ms, rest);
        ObjectValueReadsBack(ms, MembersText(ms), rest);
    }
  }

  lemma {:induction false} RestBegins(ms: Members, rest: string)
    requires Writable(ms)
    ensures if ms.End? then Begins(Rest(ms) + rest, '}', rest)
            else Begins(Rest(ms) + rest, ',', MembersText(ms) + rest)
  {
    if ms.Member? {
      OneCharFirst(',', MembersText(ms), rest);
    } else {
      OneCharFirst('}', "", rest);
      assert "" + rest == rest && "}" + "" == "}";
    }
  }

  /** An object, written member after member, reads back as the same members in the same order. */
  lemma {:induction false} MembersReadBack(ms: Members, rest: string)
    requires ms.Member? && Writable(ms)
    ensures ParseMembers(MembersText(ms) + rest) == Good(ms, rest)
    decreases ms, 0
  {
    var value, more := ValText(ms.val), Rest(ms.rest) + rest;
    RestBegins(ms.rest, rest);
    ValReadsBack(ms.val, more);
    OneMemberReadsBack(ms.key, value, ms.val, more);
    MoreToTheRight(KeyText(ms.key), value, Rest(ms.rest), rest);
    if ms.rest.Member? {
      MembersReadBack(ms.rest, rest);
    }
  }

  lemma MoreToTheRight(key: string, value: string, more: string, rest: string)
    ensures key + value + more + rest == key + (value + (more + rest))
  {
    assert key + value + more + rest == key + value + (more + rest);
  }

  lemma ObjectReadsBack(ms: Members)
    requires ms.Member? && Writable(ms)
    ensures ParseObject("{" + MembersText(ms)) == Some(ms)
  {
    MembersReadBack(ms, "");
    assert ("{" + MembersText(ms))[1..] == MembersText(ms) == MembersText(ms) + "";
  }

  /** What the source writes for one more member: a label with the comma and the key, and the value. */
  lemma {:induction false} OneMoreMember(before: string, text: string, key: string, v: Val, ms: Members)
    requires Plain(key) && WritableVal(v) && Writable(ms) && text == "," + KeyText(key)
    ensures before + text + ValText(v) + Rest(ms) == before + Rest(Member(key, v, ms))
  {
    ToTheLeft(before, ",", KeyText(key), ValText(v), Rest(ms));
  }

  lemma ToTheLeft(before: string, comma: string, key: string, value: string, rest: string)
    ensures before + (comma + (key + value + rest)) == before + (comma + key) + value + rest
  {
    assert before + (comma + (key + value + rest)) == before + comma + key + value + rest;
  }

  /** The first member, with the brace that opens the object. */
  lemma {:induction false} FirstMember(text: string, ms: Members)
    requires ms.Member? && Writable(ms) && text == "{" + KeyText(ms.key)
    ensures text + ValText(ms.val) + Rest(ms.rest) == "{" + MembersText(ms)
  {
  }
}
