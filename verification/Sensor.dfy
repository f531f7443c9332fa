/**
 The sensor in use, decided by the web page and by the telemetry task under one lock
 (esp32/main/sensor/sensor.c).
 */
module Sensor {
  import opened Wrappers

  datatype Model = NoSensor | Dht11 | Dht22 | Bmp280 | Bme280

  type RealModel = m: Model | m != NoSensor witness Dht11

  datatype Setting = Auto | Manual(model: RealModel)

  datatype State = Detecting | Ready | NotDetected

  /** What the lock guards. */
  datatype Shared = Shared(setting: Setting, detected: Model, model: Model, state: State, detectNow: bool,
                           lastModel: Model)

  /** Where the telemetry task stands: outside the sensor, probing the pins, or reading a model. */
  datatype Task = Outside | Probing | Reading(model: RealModel)

  datatype System = System(shared: Shared, task: Task)

  function EffectiveModel(setting: Setting, detected: Model): Model {
    match setting
    case Auto => detected
    case Manual(m) => m
  }

  // ---------------------------------------------------------------- the critical sections

  /** sensor_init. */
  function Initial(setting: Setting, detected: Model): Shared {
    var model := EffectiveModel(setting, detected);
    Shared(setting, detected, model, if model != NoSensor then Ready else Detecting, false, NoSensor)
  }

  /** The first section of resolve_model; `due` says that the retry time has come. */
  function CycleBegins(s: Shared, due: bool): (Shared, Task) {
    var requested := s.detectNow || s.state == Detecting;
    (s.(detectNow := false),
     if s.model != NoSensor then Reading(s.model)
     else if s.setting.Auto? && (requested || due) then Probing
     else Outside)
  }

  predicate IsCurrent(s: Shared) {
    s.setting.Auto? && s.model == NoSensor && !s.detectNow
  }

  /** The second section: `found` is kept only if no newer setting or request arrived meanwhile. */
  function ProbeEnds(s: Shared, found: Model): (Shared, Task) {
    if !IsCurrent(s) then (s, Outside)
    else (s.(detected := found, model := found, state := if found != NoSensor then Ready else NotDetected),
          if found != NoSensor then Reading(found) else Outside)
  }

  /** The end of sensor_read. */
  function ReadEnds(s: Shared, model: RealModel, valid: bool): Shared {
    if valid && s.model == model then s.(lastModel := model) else s
  }

  /** sensor_get_last: the sensor whose last reading is shown, if any is. */
  function Shown(s: Shared): Option<RealModel> {
    if s.lastModel != NoSensor && s.lastModel == s.model then Some(s.lastModel) else None
  }

  /** sensor_set_setting; without `stored` the NVS write failed. */
  function SetSetting(s: Shared, setting: Setting, stored: bool): Shared {
    if !stored then s
    else match setting
      case Manual(m) => s.(setting := setting, model := m, state := Ready)
      case Auto =>
        if s.setting.Auto? then s
        else s.(setting := Auto, detected := NoSensor, model := NoSensor, state := Detecting, detectNow := true)
  }

  /** sensor_request_detection. */
  function RequestDetection(s: Shared, stored: bool): Shared {
    if !stored then s
    else s.(setting := Auto, detected := NoSensor, model := NoSensor, state := Detecting, detectNow := true)
  }

  class SensorState {
    var setting: Setting
    var detected: Model
    var model: Model
    var state: State
    var detectNow: bool
    var lastModel: Model
    var hasLast: bool

    ghost function View(): Shared
      reads this
    {
      Shared(setting, detected, model, state, detectNow, if hasLast then lastModel else NoSensor)
    }

    /** A reading is there only with the sensor it came from. */
    ghost predicate Valid()
      reads this
    {
      hasLast ==> lastModel != NoSensor
    }

    constructor (stored: Setting, detectedEarlier: Model)
      ensures Valid() && View() == Initial(stored, detectedEarlier)
    {
      setting := stored;
      detected := detectedEarlier;
      model := EffectiveModel(stored, detectedEarlier);
      state := if EffectiveModel(stored, detectedEarlier) != NoSensor then Ready else Detecting;
      detectNow, lastModel, hasLast := false, NoSensor, false;
    }

    method BeginCycle(due: bool) returns (use: Model, probe: bool)
      requires Valid()
      modifies this`detectNow
      ensures Valid()
      ensures View() == CycleBegins(old(View()), due).0
      ensures CycleBegins(old(View()), due).1
              == if probe then Probing else if use != NoSensor then Reading(use) else Outside
    {
      use := model;
      var autoSetting := setting == Auto;
      var requested := detectNow || state == Detecting;
      detectNow := false;
      if !autoSetting || use != NoSensor {
        return use, false;
      }
      if !requested && !due {
        return NoSensor, false;
      }
      return NoSensor, true;
    }

    method EndProbe(found: Model) returns (use: Model)
      requires Valid()
      modifies this`detected, this`model, this`state
      ensures Valid()
      ensures View() == ProbeEnds(old(View()), found).0
      ensures ProbeEnds(old(View()), found).1 == if use != NoSensor then Reading(use) else Outside
    {
      var current := setting == Auto && model == NoSensor && !detectNow;
      if current {
        detected := found;
        model := found;
        state := if found != NoSensor then Ready else NotDetected;
      }
      return if current then found else NoSensor;
    }

    method EndRead(read: RealModel, valid: bool)
      requires Valid()
      modifies this`lastModel, this`hasLast
      ensures Valid()
      ensures View() == ReadEnds(old(View()), read, valid)
    {
      if valid && model == read {
        lastModel := read;
        hasLast := true;
      }
    }

    method GetLast() returns (has: bool, read: Model)
      requires Valid()
      ensures has <==> Shown(View()).Some?
      ensures has ==> Shown(View()) == Some(read)
    {
      has := hasLast && lastModel == model;
      read := if has then lastModel else NoSensor;
    }

    method ChangeSetting(wanted: Setting, stored: bool)
      requires Valid()
      modifies this
      ensures Valid()
      ensures View() == SetSetting(old(View()), wanted, stored)
    {
      if !stored {
        return;
      }
      var previous := setting;
      setting := wanted;
      if wanted != Auto {
        model := wanted.model;
        state := Ready;
      } else if previous != Auto {
        detected := NoSensor;
        model := NoSensor;
        state := Detecting;
        detectNow := true;
      }
    }

    method DetectAgain(stored: bool)
      requires Valid()
      modifies this
      ensures Valid()
      ensures View() == RequestDetection(old(View()), stored)
    {
      if !stored {
        return;
      }
      setting := Auto;
      detected := NoSensor;
      model := NoSensor;
      state := Detecting;
      detectNow := true;
    }
  }

  // ---------------------------------------------------------------- interleavings

  datatype Event =
    | Cycle(due: bool)
    | Probed(found: Model)
    | Read(valid: bool)
    | Choose(setting: Setting, stored: bool)
    | Detect(stored: bool)

  predicate FromWeb(e: Event) {
    e.Choose? || e.Detect?
  }

  /** The system after `e`, which is left alone by a step its task is not at. */
  function Next(s: System, e: Event): System {
    match e
    case Cycle(due) =>
      if s.task.Outside? then var (shared, task) := CycleBegins(s.shared, due); System(shared, task) else s
    case Probed(found) =>
      if s.task.Probing? then var (shared, task) := ProbeEnds(s.shared, found); System(shared, task) else s
    case Read(valid) =>
      if s.task.Reading? then System(ReadEnds(s.shared, s.task.model, valid), Outside) else s
    case Choose(setting, stored) => s.(shared := SetSetting(s.shared, setting, stored))
    case Detect(stored) => s.(shared := RequestDetection(s.shared, stored))
  }

  function Run(s: System, es: seq<Event>): System
    decreases |es|
  {
    if es == [] then s else Run(Next(s, es[0]), es[1..])
  }

  predicate Sound(s: System) {
    && s.shared.model == EffectiveModel(s.shared.setting, s.shared.detected)
    && (s.shared.state.Ready? <==> s.shared.model != NoSensor)
    && (s.shared.detectNow ==> s.shared.setting.Manual? || s.shared.state.Detecting?)
    && (s.shared.state.Detecting? && s.task.Probing? ==> s.shared.setting.Auto? && s.shared.model == NoSensor)
  }

  lemma StepIsSound(s: System, e: Event)
    requires Sound(s)
    ensures Sound(Next(s, e))
  {
  }

  /**
   In every interleaving of the web page and the telemetry task the model in use is the one the setting
   and the last detection call for, and the sensor is ready exactly when there is one.
   */
  lemma {:induction false} RunIsSound(s: System, es: seq<Event>)
    requires Sound(s)
    ensures Sound(Run(s, es))
    decreases |es|
  {
    if es != [] {
      StepIsSound(s, es[0]);
      RunIsSound(Next(s, es[0]), es[1..]);
    }
  }

  lemma FromTheStart(setting: Setting, detected: Model, es: seq<Event>)
    ensures Sound(Run(System(Initial(setting, detected), Outside), es))
  {
    RunIsSound(System(Initial(setting, detected), Outside), es);
  }

  // ---------------------------------------------------------------- the race of a detection

  /** The page picks a model, leaves a picked one, or asks for a detection. */
  predicate Changes(s: Shared, e: Event) {
    && FromWeb(e) && e.stored
    && (e.Detect? || e.setting.Manual? || s.setting.Manual?)
  }

  /** Some step of `es`, all from the page, is such a change. */
  predicate SomeChange(s: System, es: seq<Event>)
    decreases |es|
  {
    es != [] && (Changes(s.shared, es[0]) || SomeChange(Next(s, es[0]), es[1..]))
  }

  lemma {:induction false} ChangesShow(s: System, es: seq<Event>)
    requires s.task.Probing? && forall k :: 0 <= k < |es| ==> FromWeb(es[k])
    requires s.shared.setting.Auto? ==> s.shared.model == NoSensor
    ensures Run(s, es).task.Probing?
    ensures SomeChange(s, es) || !IsCurrent(s.shared) ==> !IsCurrent(Run(s, es).shared)
    ensures !SomeChange(s, es) ==> Run(s, es).shared == s.shared
    decreases |es|
  {
    if es != [] {
      assert FromWeb(es[0]);
      ChangesShow(Next(s, es[0]), es[1..]);
    }
  }

  /**
   What a detection found is kept exactly when the page changed nothing while it ran: a result begun before
   a manual choice or a "detect again" is dropped, even if the page is back on automatic by then.
   */
  lemma StaleDetectionIsDropped(s: System, due: bool, es: seq<Event>, found: Model)
    requires Sound(s) && s.task.Outside? && Next(s, Cycle(due)).task.Probing?
    requires forall k :: 0 <= k < |es| ==> FromWeb(es[k])
    ensures var before := Run(Next(s, Cycle(due)), es);
            var after := Next(before, Probed(found));
            && before.task.Probing?
            && (SomeChange(Next(s, Cycle(due)), es) ==> after == System(before.shared, Outside))
            && (!SomeChange(Next(s, Cycle(due)), es) ==>
                  && after.shared.model == found && after.shared.detected == found
                  && after.shared.state == (if found != NoSensor then Ready else NotDetected))
  {
    ChangesShow(Next(s, Cycle(due)), es);
  }

  // ---------------------------------------------------------------- no request is lost

  /** A detection was asked for and has not been answered. */
  predicate Owed(s: System) {
    && s.shared.setting.Auto? && s.shared.model == NoSensor && s.shared.state.Detecting?
    && (s.task.Probing? ==> s.shared.detectNow || IsCurrent(s.shared))
  }

  lemma AskingIsOwed(s: System, e: Event)
    requires Sound(s) && FromWeb(e) && e.stored && (e.Detect? || (e.setting.Auto? && s.shared.setting.Manual?))
    ensures Owed(Next(s, e)) && Next(s, e).shared.detectNow
  {
  }

  predicate AnswersWith(s: System, e: Event, found: Model) {
    e == Probed(found) && s.task.Probing? && IsCurrent(s.shared)
  }

  /** A request stays owed until a detection that began after it ends, or the page picks a model. */
  lemma OwedUntilAnswered(s: System, e: Event)
    requires Sound(s) && Owed(s)
    ensures || Owed(Next(s, e))
            || (e.Probed? && AnswersWith(s, e, e.found))
            || (e.Choose? && e.setting.Manual? && e.stored)
  {
  }

  /**
   A cycle reads the model in use; without one it looks for a sensor exactly on automatic and when it was asked
   to, has not looked yet, or the retry time has come. Either way it takes note of the request.
   */
  lemma CycleExactly(s: System, due: bool)
    requires s.task.Outside?
    ensures var after := Next(s, Cycle(due));
            && after.shared == s.shared.(detectNow := false)
            && (s.shared.model != NoSensor ==> after.task == Reading(s.shared.model))
            && (s.shared.model == NoSensor ==>
                  after.task == if s.shared.setting.Auto? && (s.shared.detectNow || s.shared.state.Detecting? || due)
                                then Probing else Outside)
  {
  }

  /** A boot uses what is set or was detected before, and otherwise looks for a sensor in its first cycle. */
  lemma BootUsesOrLooks(setting: Setting, detected: Model, due: bool)
    ensures var first := Next(System(Initial(setting, detected), Outside), Cycle(due));
            && (setting.Manual? ==> first.task == Reading(setting.model) && first.shared.state.Ready?)
            && (setting.Auto? && detected != NoSensor ==> first.task == Reading(detected) && first.shared.state.Ready?)
            && (setting.Auto? && detected == NoSensor ==> first.task.Probing? && first.shared.state.Detecting?)
            && Shown(first.shared).None?
  {
  }

  /** A sensor that was not found is looked for again when the retry time comes, and used once it is there. */
  lemma RetryFindsIt(s: System, found: RealModel)
    requires Sound(s) && s.task.Outside? && s.shared.setting.Auto? && s.shared.state.NotDetected?
    ensures var after := Next(Next(s, Cycle(true)), Probed(found));
            after.shared.model == after.shared.detected == found && after.shared.state.Ready? && after.task == Reading(found)
  {
  }

  /** On automatic with nothing detected: a detection is asked for. */
  function Forgotten(s: Shared): Shared {
    s.(setting := Auto, detected := NoSensor, model := NoSensor, state := Detecting, detectNow := true)
  }

  /** What the page stores takes effect at once and whole; what could not be stored has no effect. */
  lemma PageTakesEffect(s: System, wanted: Setting, stored: bool)
    ensures var after := Next(s, Choose(wanted, stored));
            && after.task == s.task
            && (!stored ==> after == s)
            && (stored && wanted.Manual? ==>
                  after.shared == s.shared.(setting := wanted, model := wanted.model, state := Ready))
            && (stored && wanted.Auto? && s.shared.setting.Auto? ==> after == s)
            && (stored && wanted.Auto? && s.shared.setting.Manual? ==>
                  after.shared == Forgotten(s.shared))
    ensures Next(s, Detect(stored)) ==
            if !stored then s
            else s.(shared := Forgotten(s.shared))
  {
  }

  /** A task that is outside the sensor answers it in its next cycle, unless the page interferes. */
  lemma NextCycleAnswers(s: System, due: bool, found: Model)
    requires Sound(s) && Owed(s) && s.task.Outside?
    ensures var probing := Next(s, Cycle(due));
            && probing.task.Probing? && AnswersWith(probing, Probed(found), found)
            && Next(probing, Probed(found)).shared.model == found
            && !Next(probing, Probed(found)).shared.state.Detecting?
  {
  }

  predicate Settles(s: System, e: Event) {
    || (e.Probed? && AnswersWith(s, e, e.found))
    || (e.Choose? && e.setting.Manual? && e.stored)
  }

  /** Some step of `es` ends a detection that answers the request, or picks a model. */
  predicate SettledIn(s: System, es: seq<Event>)
    decreases |es|
  {
    es != [] && (Settles(s, es[0]) || SettledIn(Next(s, es[0]), es[1..]))
  }

  /** However the page and the task go on, a request stays owed until it is answered or a model is picked. */
  lemma {:induction false} NoRequestIsLost(s: System, es: seq<Event>)
    requires Sound(s) && Owed(s)
    ensures SettledIn(s, es) || Owed(Run(s, es))
    decreases |es|
  {
    if es != [] && !Settles(s, es[0]) {
      OwedUntilAnswered(s, es[0]);
      StepIsSound(s, es[0]);
      NoRequestIsLost(Next(s, es[0]), es[1..]);
    }
  }

  /** `e` is the next step of the task. */
  predicate IsTurn(s: System, e: Event) {
    match s.task
    case Outside => e.Cycle?
    case Probing => e.Probed?
    case Reading(_) => e.Read?
  }

  predicate Turns(s: System, es: seq<Event>)
    decreases |es|
  {
    es == [] || (IsTurn(s, es[0]) && Turns(Next(s, es[0]), es[1..]))
  }

  /** How many steps of the task a request can still wait. */
  function Wait(s: System): nat {
    match s.task
    case Outside => 2
    case Probing => if IsCurrent(s.shared) then 1 else 3
    case Reading(_) => 3
  }

  /** From wherever the task is, it answers a request within three steps of its own, unless the page interferes. */
  lemma {:induction false} AnsweredInThreeTurns(s: System, es: seq<Event>)
    requires Sound(s) && Owed(s) && Turns(s, es) && |es| >= Wait(s)
    ensures SettledIn(s, es)
    decreases Wait(s)
  {
    if !Settles(s, es[0]) {
      StepIsSound(s, es[0]);
      AnsweredInThreeTurns(Next(s, es[0]), es[1..]);
    }
  }

  // ---------------------------------------------------------------- what is shown

  /** A reading is kept only if the sensor it came from is still the one in use. */
  lemma KeptReadingsAreCurrent(s: System, valid: bool)
    requires s.task.Reading?
    ensures var after := Next(s, Read(valid)).shared;
            && after.model == s.shared.model
            && (after.lastModel != s.shared.lastModel ==> valid && after.lastModel == after.model == s.task.model)
            && (valid && s.task.model == s.shared.model ==> after.lastModel == after.model)
            && (valid && s.task.model == s.shared.model ==> Shown(after) == Some(s.task.model))
  {
  }

  /** Some step of `es` keeps a reading of `model`. */
  predicate ReadIn(s: System, es: seq<Event>, model: Model)
    decreases |es|
  {
    es != [] &&
    (|| (es[0].Read? && es[0].valid && s.task.Reading? && s.task.model == s.shared.model == model)
     || ReadIn(Next(s, es[0]), es[1..], model))
  }

  lemma {:induction false} LastIsFromARead(s: System, es: seq<Event>)
    ensures var last := Run(s, es).shared.lastModel;
            last == s.shared.lastModel || ReadIn(s, es, last)
    decreases |es|
  {
    if es != [] {
      LastIsFromARead(Next(s, es[0]), es[1..]);
    }
  }

  /**
   After any run from a boot, a reading is shown only if it was taken since from the very sensor that the
   setting and the last detection call for now.
   */
  lemma ShownIsCurrent(setting: Setting, detected: Model, es: seq<Event>)
    ensures var boot := System(Initial(setting, detected), Outside);
            var now := Run(boot, es).shared;
            Shown(now).Some? ==>
              Shown(now).value == EffectiveModel(now.setting, now.detected) && ReadIn(boot, es, Shown(now).value)
  {
    FromTheStart(setting, detected, es);
    LastIsFromARead(System(Initial(setting, detected), Outside), es);
  }
}
