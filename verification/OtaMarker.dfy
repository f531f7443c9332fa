/** The persisted marker: ota_marker_serialize and ota_marker_parse in ota_logic.c. */
module OtaMarker {
  import opened Wrappers
  import opened OtaTypes
  import opened JsonText
  import opened OtaWriter

  const OTA_MARKER_SERIALIZED_MAX: nat := 320

  /** What the escaped texts of a marker may take together. */
  const MARKER_TEXTS_MAX: nat := 244

  const REQUEST_ID := "{\"request_id\":"
  const TARGET_VERSION := ",\"target_version\":"
  const PREVIOUS_VERSION := ",\"previous_version\":"
  const TARGET_SLOT := ",\"target_slot\":"

  predicate Printable(m: Marker) {
    IsCString(m.requestId) && IsCString(m.targetVersion) && IsCString(m.previousVersion)
  }

  function MarkerText(m: Marker): string
    requires Printable(m)
  {
    REQUEST_ID + Quoted(m.requestId)
    + TARGET_VERSION + Quoted(m.targetVersion)
    + PREVIOUS_VERSION + Quoted(m.previousVersion)
    + TARGET_SLOT + Decimal(m.targetSlot) + ['}']
  }

  /** A non-empty string of fewer than `cap` bytes. */
  function StringField(ms: Members, key: string, cap: nat): (r: Option<string>)
    ensures r.Some? ==> 0 < |r.value| < cap
  {
    match Find(ms, key)
    case Some(Text(s)) => if 0 < |s| < cap then Some(s) else None
    case _ => None
  }

  function ParseMarker(text: string): Option<Marker> {
    match ParseObject(text)
    case None => None
    case Some(ms) =>
      var id := StringField(ms, "request_id", OTA_ID_MAX);
      var target := StringField(ms, "target_version", OTA_VERSION_MAX);
      var previous := StringField(ms, "previous_version", OTA_VERSION_MAX);
      var slot := Find(ms, "target_slot");
      if id.Some? && target.Some? && previous.Some? && (slot == Some(Number(0)) || slot == Some(Number(1)))
      then Some(Marker(id.value, target.value, previous.value, slot.value.n))
      else None
  }

  /** What the rest of the firmware stores: every text present, one of the two slots. */
  predicate Complete(m: Marker) {
    m.requestId != "" && m.targetVersion != "" && m.previousVersion != "" && m.targetSlot in {0, 1}
  }

  function MarkerMembers(m: Marker): Members {
    Member("request_id", Text(m.requestId),
           Member("target_version", Text(m.targetVersion),
                  Member("previous_version", Text(m.previousVersion),
                         Member("target_slot", Number(m.targetSlot), End))))
  }

  lemma RequestIdKey()
    ensures Plain("request_id") && REQUEST_ID == "{" + KeyText("request_id")
  {
  }

  lemma TargetVersionKey()
    ensures Plain("target_version") && TARGET_VERSION == "," + KeyText("target_version")
  {
  }

  lemma PreviousVersionKey()
    ensures Plain("previous_version") && PREVIOUS_VERSION == "," + KeyText("previous_version")
  {
  }

  lemma TargetSlotKey()
    ensures Plain("target_slot") && TARGET_SLOT == "," + KeyText("target_slot")
  {
  }

  /** Four members behind the labels with which the source opens them. */
  lemma {:induction false} FourMembersText(first: string, a: Members, second: string, b: Members, third: string, c: Members,
                                          fourth: string, d: Members)
    requires a.Member? && b.Member? && c.Member? && d.Member?
    requires a.rest == b && b.rest == c && c.rest == d && d.rest == End
    requires Writable(a) && Writable(b) && Writable(c) && Writable(d)
    requires first == "{" + KeyText(a.key) && second == "," + KeyText(b.key)
    requires third == "," + KeyText(c.key) && fourth == "," + KeyText(d.key)
    ensures "{" + MembersText(a) ==
            first + ValText(a.val) + second + ValText(b.val) + third + ValText(c.val) + fourth + ValText(d.val) + "}"
  {
    var one := first + ValText(a.val);
    var two := one + second + ValText(b.val);
    OneMoreMember(two + third + ValText(c.val), fourth, d.key, d.val, End);
    OneMoreMember(two, third, c.key, c.val, d);
    OneMoreMember(one, second, b.key, b.val, c);
    FirstMember(first, a);
  }

  lemma MarkerTextIsAnObject(m: Marker)
    requires Printable(m)
    ensures Writable(MarkerMembers(m)) && MarkerText(m) == "{" + MembersText(MarkerMembers(m))
  {
    RequestIdKey();
    TargetVersionKey();
    PreviousVersionKey();
    TargetSlotKey();
    var a := MarkerMembers(m);
    var b, c, d := a.rest, a.rest.rest, a.rest.rest.rest;
    assert d.rest == End && Writable(d.rest);
    assert Writable(d);
    assert Writable(c);
    assert Writable(b);
    FourMembersText(REQUEST_ID, a, TARGET_VERSION, b, PREVIOUS_VERSION, c, TARGET_SLOT, d);
  }

  /**
   Reading a serialized marker gives it back, byte for byte, exactly when it is one the firmware
   accepts; any other marker is written but reads as no marker at all.
   */
  lemma MarkerReadsBack(m: Marker)
    requires Printable(m)
    ensures ParseMarker(MarkerText(m)) == if Complete(m) then Some(m) else None
  {
    var ms := MarkerMembers(m);
    MarkerTextIsAnObject(m);
    ObjectReadsBack(ms);
    MarkerFields(m);
  }

  lemma MarkerFields(m: Marker)
    ensures Find(MarkerMembers(m), "request_id") == Some(Text(m.requestId))
    ensures Find(MarkerMembers(m), "target_version") == Some(Text(m.targetVersion))
    ensures Find(MarkerMembers(m), "previous_version") == Some(Text(m.previousVersion))
    ensures Find(MarkerMembers(m), "target_slot") == Some(Number(m.targetSlot))
  {
    var last := MarkerMembers(m).rest.rest;
    assert Find(last, "target_slot") == Find(last.rest, "target_slot");
    assert Find(MarkerMembers(m).rest, "target_slot") == Find(last, "target_slot");
    assert Find(MarkerMembers(m).rest, "previous_version") == Find(last, "previous_version");
  }

  /** `n` is the length of the text, 0 when it does not fit; past `size` the buffer is untouched. */
  method Serialize(m: Marker, buf: array<char>, size: nat) returns (n: nat)
    requires Printable(m) && size <= buf.Length
    modifies buf
    ensures n == if |MarkerText(m)| < size then |MarkerText(m)| else 0
    ensures n > 0 ==> buf[..n] == MarkerText(m)
    ensures size > 0 ==> buf[n] == 0 as char
    ensures buf[size..] == old(buf[size..])
  {
    var w := new Writer(buf, size);
    w.Raw(REQUEST_ID);
    assert "" + REQUEST_ID == REQUEST_ID;
    w.QuotedString(m.requestId);
    w.Raw(TARGET_VERSION);
    w.QuotedString(m.targetVersion);
    w.Raw(PREVIOUS_VERSION);
    w.QuotedString(m.previousVersion);
    w.Raw(TARGET_SLOT);
    w.Int(m.targetSlot);
    w.Char('}');
    n := w.Finish();
  }

  /** A marker that was written to a buffer of its own is the marker that is read from it. */
  method WriteAndRead(m: Marker) returns (loaded: Option<Marker>)
    requires Printable(m)
    ensures loaded == if |MarkerText(m)| < OTA_MARKER_SERIALIZED_MAX && Complete(m) then Some(m) else None
  {
    var buf := new char[OTA_MARKER_SERIALIZED_MAX](_ => NUL);
    var n := Serialize(m, buf, OTA_MARKER_SERIALIZED_MAX);
    if n == 0 {
      return None;
    }
    MarkerReadsBack(m);
    return ParseMarker(buf[..n]);
  }

  /** The text fits unless escaping makes the three texts longer than 244 bytes together. */
  lemma MarkerFits(m: Marker)
    requires Printable(m) && m.targetSlot in {0, 1}
    ensures |MarkerText(m)| < OTA_MARKER_SERIALIZED_MAX <==>
            |Escaped(m.requestId)| + |Escaped(m.targetVersion)| + |Escaped(m.previousVersion)| <= MARKER_TEXTS_MAX
  {
    assert |Decimal(m.targetSlot)| == 1;
  }
}
