/** Pieces of concrete runs of the device. */
module OtaScenario {
  import opened Wrappers
  import opened OtaTypes
  import opened OtaTracker
  import opened OtaDevice
  import opened OtaSafety

  lemma Then(p: Platform, d: Device, es: seq<Event>, e: Event)
    requires Run(p, d, es).Some?
    ensures Run(p, d, es + [e]) == Next(p, Run(p, d, es).value, e)
  {
    RunSplits(p, d, es, [e]);
    var m := Run(p, d, es).value;
    assert [e][1..] == [];
    if Next(p, m, e).Some? {
      assert Run(p, Next(p, m, e).value, []) == Next(p, m, e);
    }
  }

  lemma OneStep(p: Platform, d: Device, d1: Device, e: Event)
    requires Next(p, d, e) == Some(d1)
    ensures Run(p, d, [e]) == Some(d1)
  {
    Then(p, d, [], e);
    assert [] + [e] == [e];
  }

  lemma RunsTogether(p: Platform, d: Device, m: Device, e: Device, es: seq<Event>, fs: seq<Event>)
    requires Run(p, d, es) == Some(m) && Run(p, m, fs) == Some(e)
    ensures Run(p, d, es + fs) == Some(e)
  {
    RunSplits(p, d, es, fs);
  }

  lemma ThreeSteps(p: Platform, d: Device, d1: Device, d2: Device, d3: Device, e1: Event, e2: Event, e3: Event)
    requires Next(p, d, e1) == Some(d1) && Next(p, d1, e2) == Some(d2) && Next(p, d2, e3) == Some(d3)
    ensures Run(p, d, [e1, e2, e3]) == Some(d3)
  {
    OneStep(p, d, d1, e1);
    OneStep(p, d1, d2, e2);
    OneStep(p, d2, d3, e3);
    RunsTogether(p, d1, d2, d3, [e2], [e3]);
    RunsTogether(p, d, d1, d3, [e1], [e2] + [e3]);
    assert [e1] + ([e2] + [e3]) == [e1, e2, e3];
  }

  /** The device is on and nothing is under way. */
  predicate Idle(d: Device) {
    && Alive(d)
    && var r := d.ram.value;
    && WellFormed(r.tracker) && !AnyActive(r.tracker) && r.updates == []
    && !r.validationPending && !r.switchPending && r.web.NoSwitch?
    && r.running == d.boot
  }

  /** A new command that fits, of another version unless forced: a quiet device accepts it. */
  predicate Orderable(d: Device, cmd: Command)
    requires Alive(d)
  {
    && Lookup(d.ram.value.tracker, cmd.requestId).None?
    && cmd.size <= OTA_SLOT_SIZE && (cmd.force || cmd.version != d.ram.value.version)
  }

  /** The newest entry is that of `id`, and no other one is in flight. */
  predicate Newest(t: seq<Status>, id: RequestId) {
    && t != [] && WellFormed(t) && t[|t| - 1].requestId == id
    && forall k :: 0 <= k < |t| - 1 ==> !IsActive(t[k].state)
  }

  /** The update is under way and got as far as `stage`. */
  predicate Loading(d: Device, cmd: Command, stage: Stage) {
    && Alive(d)
    && var r := d.ram.value;
    && r.running == d.boot && r.updates == [Update(cmd, stage)] && Newest(r.tracker, cmd.requestId)
    && !r.validationPending && !r.switchPending && r.web.NoSwitch?
  }

  /** Whatever happened between the two concerns the slots, the record and the updates only. */
  predicate SameAround(d: Device, d': Device) {
    && Alive(d) && Alive(d') && d'.boot == d.boot && d'.marker == d.marker
    && d'.ram.value.running == d.ram.value.running && d'.ram.value.version == d.ram.value.version
    && d'.ram.value.report == d.ram.value.report
  }

  lemma EntersNewest(t: seq<Status>, st: Status)
    requires WellFormed(t) && !AnyActive(t) && IndexOf(t, st.requestId) < 0
    ensures Newest(Updated(t, st), st.requestId)
  {
    NewestEntry(t, st);
    UpdatedKeepsWellFormed(t, st);
    var u := Updated(t, st);
    if |t| == OTA_TRACKER_SIZE {
      var v := Victim(t);
      assert forall k :: 0 <= k < |u| - 1 ==> u[k] == t[if k < v then k else k + 1];
    } else {
      assert forall k :: 0 <= k < |u| - 1 ==> u[k] == t[k];
    }
  }

  lemma StaysNewest(t: seq<Status>, st: Status)
    requires Newest(t, st.requestId)
    ensures Updated(t, st) == t[|t| - 1 := st] && Newest(Updated(t, st), st.requestId)
    ensures IsActive(st.state) || !AnyActive(Updated(t, st))
  {
    LookupIsTheEntry(t, |t| - 1);
    UpdatedKeepsWellFormed(t, st);
  }

  lemma Accepts(d: Device, cmd: Command)
    requires Idle(d) && Orderable(d, cmd)
    ensures CommandStep(d, cmd, true, AsTheyAre).Some?
    ensures var d' := CommandStep(d, cmd, true, AsTheyAre).value;
            Loading(d', cmd, Starting) && SameAround(d, d') && d'.slots == d.slots
  {
    EntersNewest(d.ram.value.tracker, Status(cmd.requestId, cmd.version, Accepted, NoError, -1));
  }

  lemma DownloadBegins(d: Device, cmd: Command)
    requires Loading(d, cmd, Starting)
    ensures StartStep(d, 0, true).Some?
    ensures var d1 := StartStep(d, 0, true).value;
            && BeginFlashStep(d1, 0).Some?
            && var d2 := BeginFlashStep(d1, 0).value;
            Loading(d2, cmd, Writing([])) && SameAround(d, d2) && d2.slots == d.slots
  {
    assert Loading(StartStep(d, 0, true).value, cmd, Preparing);
    StaysNewest(d.ram.value.tracker, RunStatus(cmd, Downloading, 0));
  }

  /** `d'` is `d` with `bytes` in the slot that does not run. */
  predicate Holding(d: Device, bytes: seq<byte>, d': Device) {
    && SameAround(d, d')
    && d'.slots == d.slots[Other(d.boot) := d.slots[Other(d.boot)].(flash := bytes)]
  }

  lemma LoadsBytes(d: Device, cmd: Command, bytes: seq<byte>)
    requires Loading(d, cmd, Writing([])) && 0 < |bytes| <= cmd.size <= OTA_SLOT_SIZE
    ensures WriteStep(d, 0, bytes, []).Some?
    ensures var d1 := WriteStep(d, 0, bytes, []).value;
            Loading(d1, cmd, Writing(bytes)) && Holding(d, bytes, d1)
  {
    assert [] + bytes == bytes && bytes + [] == bytes;
  }

  function OrderAndBegin(cmd: Command): seq<Event> {
    [OnCommand(cmd, true, AsTheyAre), StartTask(0, true), BeginFlash(0)]
  }

  lemma Begins(p: Platform, d: Device, cmd: Command) returns (b: Device)
    requires Idle(d) && Orderable(d, cmd)
    ensures Run(p, d, OrderAndBegin(cmd)) == Some(b)
    ensures Loading(b, cmd, Writing([])) && SameAround(d, b) && b.slots == d.slots
  {
    Accepts(d, cmd);
    var d1 := CommandStep(d, cmd, true, AsTheyAre).value;
    DownloadBegins(d1, cmd);
    var d2 := StartStep(d1, 0, true).value;
    b := BeginFlashStep(d2, 0).value;
    ThreeSteps(p, d, d1, d2, b, OnCommand(cmd, true, AsTheyAre), StartTask(0, true), BeginFlash(0));
  }

  // ---------------------------------------------------------------- a switch from the web page

  function SwitchSlots(id: RequestId, stale: bool): seq<Event> {
    [ChooseSwitch(id, stale), StoreSwitch(true), SetBootSwitch(true, false)]
  }

  /** The web page offers the other slot, and ESP-IDF takes it; `stale` as in ChooseSwitch. */
  predicate Switchable(p: Platform, d: Device, stale: bool) {
    && Alive(d) && d.ram.value.running == d.boot && d.ram.value.web.NoSwitch?
    && (stale || !DeviceBusy(d.ram.value))
    && Offered(p, d.slots[Other(d.boot)], d.ram.value.version) && p.imageOk(d.slots[Other(d.boot)].flash)
  }

  /** The other slot boots next, as a new image, announced by a marker; the restart is to come. */
  predicate SwitchedAway(p: Platform, d: Device, id: RequestId, b: Device) {
    && Alive(d) && Alive(b) && b.boot == Other(d.boot) && b.ram.value.running == d.boot
    && b.slots == d.slots[b.boot := d.slots[b.boot].(img := New)] && b.ram.value.updates == d.ram.value.updates
    && b.ram.value.tracker == d.ram.value.tracker && b.ram.value.version == d.ram.value.version
    && b.ram.value.web.ToRestart? && b.ram.value.switchPending
    && b.marker == Some(Marker(id, p.versionOf(d.slots[b.boot].flash), d.ram.value.version, b.boot))
  }

  lemma SwitchSteps(p: Platform, d: Device, id: RequestId, stale: bool) returns (d1: Device, d2: Device, b: Device)
    requires Switchable(p, d, stale) && id != ""
    ensures ChooseStep(p, d, id, stale) == Some(d1) && StoreSwitchStep(d1, true) == Some(d2)
    ensures SetBootSwitchStep(p, d2, true, false) == Some(b) && SwitchedAway(p, d, id, b)
  {
    d1 := ChooseStep(p, d, id, stale).value;
    d2 := StoreSwitchStep(d1, true).value;
    b := SetBootSwitchStep(p, d2, true, false).value;
  }

  lemma SwitchRun(p: Platform, d: Device, id: RequestId, stale: bool) returns (b: Device)
    requires Switchable(p, d, stale) && id != ""
    ensures Run(p, d, SwitchSlots(id, stale)) == Some(b) && SwitchedAway(p, d, id, b)
  {
    var d1, d2;
    d1, d2, b := SwitchSteps(p, d, id, stale);
    ThreeSteps(p, d, d1, d2, b, ChooseSwitch(id, stale), StoreSwitch(true), SetBootSwitch(true, false));
  }
}
