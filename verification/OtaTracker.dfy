/**
 The bounded record of handled requests (ota_tracker_* in ota_logic.c) and what it is for:
 a request delivered twice must not run twice.
 */
module OtaTracker {
  import opened Wrappers
  import opened OtaTypes

  // ---------------------------------------------------------------- the record as a value

  predicate DistinctIds(t: seq<Status>) {
    forall i, j :: 0 <= i < j < |t| ==> t[i].requestId != t[j].requestId
  }

  predicate WellFormed(t: seq<Status>) {
    |t| <= OTA_TRACKER_SIZE && DistinctIds(t)
  }

  predicate AtMostOneActive(t: seq<Status>) {
    forall i, j :: 0 <= i < j < |t| ==> !(IsActive(t[i].state) && IsActive(t[j].state))
  }

  /** The first position of `id`, -1 when it is not there. */
  function IndexOf(t: seq<Status>, id: RequestId): (k: int)
    ensures -1 <= k < |t|
    ensures 0 <= k ==> t[k].requestId == id
    ensures forall j :: 0 <= j < (if 0 <= k then k else |t|) ==> t[j].requestId != id
  {
    if t == [] then -1
    else if t[0].requestId == id then 0
    else
      var k := IndexOf(t[1..], id);
      assert forall j :: 1 <= j < |t| ==> t[j] == t[1..][j - 1];
      if k < 0 then -1 else k + 1
  }

  function Lookup(t: seq<Status>, id: RequestId): Option<Status> {
    var k := IndexOf(t, id);
    if k < 0 then None else Some(t[k])
  }

  /** The oldest request that is not in flight; position 0 when all of them are. */
  function Victim(t: seq<Status>): (v: nat)
    requires t != []
    ensures v < |t|
    ensures IsActive(t[v].state) ==> v == 0 && forall j :: 0 <= j < |t| ==> IsActive(t[j].state)
    ensures !IsActive(t[v].state) ==> forall j :: 0 <= j < v ==> IsActive(t[j].state)
  {
    if !IsActive(t[0].state) || |t| == 1 then 0
    else
      var v := Victim(t[1..]);
      assert forall j :: 1 <= j < |t| ==> t[j] == t[1..][j - 1];
      if IsActive(t[1 + v].state) then 0 else v + 1
  }

  lemma {:induction false} VictimIs(t: seq<Status>, v: nat)
    requires v < |t| && forall j :: 0 <= j < v ==> IsActive(t[j].state)
    requires IsActive(t[v].state) ==> v == 0 && forall j :: 0 <= j < |t| ==> IsActive(t[j].state)
    ensures Victim(t) == v
  {
    if IsActive(t[v].state) {
      assert IsActive(t[Victim(t)].state);
    } else if v > 0 {
      VictimIs(t[1..], v - 1);
    }
  }

  function Without(t: seq<Status>, k: nat): seq<Status>
    requires k < |t|
  {
    t[..k] + t[k + 1..]
  }

  function Updated(t: seq<Status>, st: Status): seq<Status> {
    var k := IndexOf(t, st.requestId);
    if 0 <= k then t[k := st]
    else if |t| == OTA_TRACKER_SIZE then Without(t, Victim(t)) + [st]
    else t + [st]
  }

  // ---------------------------------------------------------------- the record as the firmware keeps it

  class Tracker {
    const entries: array<Status>
    var count: nat

    ghost predicate Valid()
      reads this, entries
    {
      entries.Length == OTA_TRACKER_SIZE && count <= OTA_TRACKER_SIZE && WellFormed(entries[..count])
    }

    /** The handled requests, oldest first. */
    ghost function Contents(): seq<Status>
      reads this, entries
      requires Valid()
    {
      entries[..count]
    }

    constructor ()
      ensures Valid() && Contents() == [] && fresh(entries)
    {
      entries := new Status[OTA_TRACKER_SIZE](_ => Status("", "", Accepted, NoError, 0));
      count := 0;
    }

    method Find(id: RequestId) returns (found: Option<Status>)
      requires Valid()
      ensures found == Lookup(Contents(), id)
    {
      var i := 0;
      while i < count
        invariant i <= count
        invariant forall j :: 0 <= j < i ==> entries[j].requestId != id
      {
        if entries[i].requestId == id {
          assert Contents()[i].requestId == id;
          return Some(entries[i]);
        }
        i := i + 1;
      }
      return None;
    }

    method Active() returns (found: Option<Status>)
      requires Valid()
      ensures found.None? <==> forall k :: 0 <= k < |Contents()| ==> !IsActive(Contents()[k].state)
      ensures found.Some? ==> found.value in Contents() && IsActive(found.value.state)
    {
      var i := 0;
      while i < count
        invariant i <= count
        invariant forall j :: 0 <= j < i ==> !IsActive(entries[j].state)
      {
        if IsActive(entries[i].state) {
          assert Contents()[i] == entries[i];
          return Some(entries[i]);
        }
        i := i + 1;
      }
      return None;
    }

    /** Drops position `victim` by moving the later entries one place down (the memmove). */
    method Drop(victim: nat)
      requires Valid() && victim < count
      modifies this`count, entries
      ensures Valid()
      ensures Contents() == Without(old(Contents()), victim)
    {
      ghost var was := Contents();
      var i := victim;
      while i + 1 < count
        invariant victim <= i < count == |was|
        invariant entries[..i] == Without(was, victim)[..i]
        invariant forall j :: i < j < count ==> entries[j] == was[j]
      {
        entries[i] := entries[i + 1];
        i := i + 1;
      }
      count := count - 1;
      assert entries[..count] == Without(was, victim);
      WithoutKeepsDistinct(was, victim);
    }

    method FindVictim() returns (victim: nat)
      requires Valid() && count > 0
      ensures victim == Victim(Contents())
    {
      victim := 0;
      ghost var t := Contents();
      for i := 0 to count
        invariant forall j :: 0 <= j < i ==> IsActive(t[j].state)
      {
        assert t[i] == entries[i];
        if !IsActive(entries[i].state) {
          VictimIs(t, i);
          return i;
        }
      }
      VictimIs(t, 0);
    }

    method Update(id: RequestId, targetVersion: Version, state: OtaState, error: OtaError, progress: int)
      requires Valid()
      modifies this`count, entries
      ensures Valid()
      ensures Contents() == Updated(old(Contents()), Status(id, targetVersion, state, error, progress))
    {
      ghost var was := Contents();
      ghost var st := Status(id, targetVersion, state, error, progress);
      var idx := -1;
      for i := 0 to count
        invariant -1 <= idx < i
        invariant 0 <= idx ==> entries[idx].requestId == id
        invariant idx < 0 ==> forall j :: 0 <= j < i ==> entries[j].requestId != id
      {
        if entries[i].requestId == id {
          idx := i;
        }
      }
      assert idx == IndexOf(was, id);
      if idx < 0 {
        if count == OTA_TRACKER_SIZE {
          var victim := FindVictim();
          Drop(victim);
        }
        idx := count;
        count := count + 1;
      }
      entries[idx] := Status(id, targetVersion, state, error, progress);
      UpdatedKeepsWellFormed(was, st);
      assert entries[..count] == Updated(was, st);
    }
  }

  // ---------------------------------------------------------------- what an update keeps

  lemma WithoutKeepsDistinct(t: seq<Status>, k: nat)
    requires k < |t| && DistinctIds(t)
    ensures DistinctIds(Without(t, k))
  {
    var r := Without(t, k);
    assert forall i :: 0 <= i < |r| ==> r[i] == t[if i < k then i else i + 1];
  }

  lemma UpdatedKeepsWellFormed(t: seq<Status>, st: Status)
    requires WellFormed(t)
    ensures WellFormed(Updated(t, st))
  {
    if IndexOf(t, st.requestId) < 0 && |t| == OTA_TRACKER_SIZE {
      WithoutKeepsDistinct(t, Victim(t));
    }
  }

  lemma LookupIsTheEntry(t: seq<Status>, i: nat)
    requires DistinctIds(t) && i < |t|
    ensures IndexOf(t, t[i].requestId) == i
  {
  }

  lemma WithoutLookup(t: seq<Status>, k: nat, x: RequestId)
    requires DistinctIds(t) && k < |t|
    ensures Lookup(Without(t, k), x) == if t[k].requestId == x then None else Lookup(t, x)
  {
    var r := Without(t, k);
    WithoutKeepsDistinct(t, k);
    assert forall i :: 0 <= i < |r| ==> r[i] == t[if i < k then i else i + 1];
    var j := IndexOf(t, x);
    if j == k {
      assert forall i :: 0 <= i < |t| && i != k ==> t[i].requestId != x;
    } else if 0 <= j {
      var i := if j < k then j else j - 1;
      assert r[i] == t[j];
      LookupIsTheEntry(r, i);
    }
  }

  lemma AppendLookup(t: seq<Status>, st: Status, x: RequestId)
    requires DistinctIds(t) && IndexOf(t, st.requestId) < 0
    ensures Lookup(t + [st], x) == if x == st.requestId then Some(st) else Lookup(t, x)
  {
    var u := t + [st];
    var j := IndexOf(t, x);
    assert forall i :: 0 <= i < |t| ==> u[i] == t[i];
    if 0 <= j {
      LookupIsTheEntry(u, j);
    } else if x == st.requestId {
      LookupIsTheEntry(u, |t|);
    }
  }

  lemma ChangeLookup(t: seq<Status>, k: nat, st: Status, x: RequestId)
    requires DistinctIds(t) && k < |t| && t[k].requestId == st.requestId
    ensures Lookup(t[k := st], x) == if x == st.requestId then Some(st) else Lookup(t, x)
  {
    var u := t[k := st];
    assert forall i :: 0 <= i < |u| ==> u[i].requestId == t[i].requestId;
    var j := IndexOf(t, x);
    if 0 <= j {
      LookupIsTheEntry(u, j);
    }
  }

  lemma VictimIsInactive(t: seq<Status>)
    requires |t| > 1 && AtMostOneActive(t)
    ensures !IsActive(t[Victim(t)].state)
  {
    assert !(IsActive(t[0].state) && IsActive(t[1].state));
  }

  /**
   The effect of an update seen request by request: the request itself gets the new status, every
   other one keeps its own, except that a full record may forget one other request, and then never
   one that is in flight.
   */
  lemma UpdateByRequest(t: seq<Status>, st: Status, x: RequestId)
    requires WellFormed(t) && AtMostOneActive(t)
    ensures Lookup(Updated(t, st), st.requestId) == Some(st)
    ensures x != st.requestId ==>
              || Lookup(Updated(t, st), x) == Lookup(t, x)
              || (Lookup(t, x).Some? && !IsActive(Lookup(t, x).value.state) && Lookup(Updated(t, st), x).None?)
  {
    var k := IndexOf(t, st.requestId);
    if 0 <= k {
      ChangeLookup(t, k, st, x);
      ChangeLookup(t, k, st, st.requestId);
    } else if |t| == OTA_TRACKER_SIZE {
      var v := Victim(t);
      WithoutKeepsDistinct(t, v);
      WithoutLookup(t, v, x);
      WithoutLookup(t, v, st.requestId);
      AppendLookup(Without(t, v), st, x);
      AppendLookup(Without(t, v), st, st.requestId);
      VictimIsInactive(t);
      LookupIsTheEntry(t, v);
    } else {
      AppendLookup(t, st, x);
      AppendLookup(t, st, st.requestId);
    }
  }

  // ---------------------------------------------------------------- whole runs of recordings

  /** Nothing becomes active next to another request in flight. */
  predicate Legal(t: seq<Status>, st: Status) {
    IsActive(st.state) ==>
      forall k :: 0 <= k < |t| && t[k].requestId != st.requestId ==> !IsActive(t[k].state)
  }

  lemma LegalKeepsAtMostOneActive(t: seq<Status>, st: Status)
    requires WellFormed(t) && AtMostOneActive(t) && Legal(t, st)
    ensures AtMostOneActive(Updated(t, st))
  {
    var k := IndexOf(t, st.requestId);
    if k < 0 && |t| == OTA_TRACKER_SIZE {
      var r := Without(t, Victim(t));
      assert forall i :: 0 <= i < |r| ==> r[i] == t[if i < Victim(t) then i else i + 1];
    }
  }

  lemma NewestEntry(t: seq<Status>, st: Status)
    requires WellFormed(t) && IndexOf(t, st.requestId) < 0
    ensures var u := Updated(t, st);
            u != [] && u[|u| - 1] == st && IndexOf(u, st.requestId) == |u| - 1 && IdsAfter(u, |u| - 1) == {}
  {
    UpdatedKeepsWellFormed(t, st);
    var u := Updated(t, st);
    LookupIsTheEntry(u, |u| - 1);
  }

  function RecordAll(t: seq<Status>, sts: seq<Status>): seq<Status>
    decreases |sts|
  {
    if sts == [] then t else RecordAll(Updated(t, sts[0]), sts[1..])
  }

  predicate LegalRun(t: seq<Status>, sts: seq<Status>)
    decreases |sts|
  {
    sts == [] || (Legal(t, sts[0]) && LegalRun(Updated(t, sts[0]), sts[1..]))
  }

  /** The requests that enter the record during the run. */
  function NewIds(t: seq<Status>, sts: seq<Status>): set<RequestId>
    decreases |sts|
  {
    if sts == [] then {}
    else (if IndexOf(t, sts[0].requestId) < 0 then {sts[0].requestId} else {})
         + NewIds(Updated(t, sts[0]), sts[1..])
  }

  /** The last status recorded for `r`, `before` when the run says nothing about it. */
  function LastStatus(r: RequestId, before: Status, sts: seq<Status>): Status
    decreases |sts|
  {
    if sts == [] then before
    else LastStatus(r, if sts[0].requestId == r then sts[0] else before, sts[1..])
  }

  function IdsAfter(t: seq<Status>, i: nat): set<RequestId> {
    set k | i < k < |t| :: t[k].requestId
  }

  lemma ThreeDistinct<T>(a: T, b: T, c: T, s: set<T>)
    requires a != b && a != c && b != c && {a, b, c} <= s
    ensures 3 <= |s|
  {
    assert |s| == |s - {a, b, c}| + |{a, b, c}|;
  }

  lemma NewerAfterChange(t: seq<Status>, i: nat, k: nat, st: Status)
    requires WellFormed(t) && i < |t| && k < |t| && t[k].requestId == st.requestId
    ensures IndexOf(t[k := st], t[i].requestId) == i && IdsAfter(t[k := st], i) <= IdsAfter(t, i)
  {
    var u := t[k := st];
    assert forall n :: 0 <= n < |u| ==> u[n].requestId == t[n].requestId;
    LookupIsTheEntry(u, i);
  }

  lemma NewerAfterAppend(t: seq<Status>, i: nat, st: Status)
    requires DistinctIds(t + [st]) && i < |t|
    ensures IndexOf(t + [st], t[i].requestId) == i
    ensures IdsAfter(t + [st], i) <= IdsAfter(t, i) + {st.requestId}
  {
    var u := t + [st];
    assert u[i] == t[i];
    LookupIsTheEntry(u, i);
  }

  lemma NewerAfterEviction(t: seq<Status>, i: nat, v: nat)
    requires DistinctIds(t) && i < |t| && v < |t| && v != i
    ensures var j := if i < v then i else i - 1;
            Without(t, v)[j] == t[i] && IdsAfter(Without(t, v), j) <= IdsAfter(t, i)
  {
    var r := Without(t, v);
    var j := if i < v then i else i - 1;
    forall n | j < n < |r|
      ensures r[n].requestId in IdsAfter(t, i)
    {
      var m := if n < v then n else n + 1;
      assert r[n] == t[m] && i < m;
    }
  }

  /** With few newer requests the eviction does not reach position `i`. */
  lemma NotTheVictim(t: seq<Status>, i: nat, entering: RequestId, newer: set<RequestId>)
    requires WellFormed(t) && AtMostOneActive(t) && |t| == OTA_TRACKER_SIZE && i < |t|
    requires forall k :: 0 <= k < |t| ==> t[k].requestId != entering
    requires IdsAfter(t, i) + {entering} <= newer && |newer| <= OTA_TRACKER_SIZE - 2
    ensures Victim(t) != i
  {
    if Victim(t) == i {
      assert !(IsActive(t[0].state) && IsActive(t[1].state));
      assert i <= 1;
      assert t[2].requestId in IdsAfter(t, i) && t[3].requestId in IdsAfter(t, i);
      ThreeDistinct(t[2].requestId, t[3].requestId, entering, newer);
    }
  }

  /** One recording: who is newer than position `i` grows only by the request that entered. */
  lemma NewerAfterUpdate(t: seq<Status>, i: nat, st: Status, newer: set<RequestId>)
    requires WellFormed(t) && AtMostOneActive(t) && i < |t|
    requires IdsAfter(t, i) <= newer && |newer| <= OTA_TRACKER_SIZE - 2
    requires IndexOf(t, st.requestId) < 0 ==> st.requestId in newer
    ensures var j := IndexOf(Updated(t, st), t[i].requestId);
            0 <= j && IdsAfter(Updated(t, st), j) <= newer
  {
    UpdatedKeepsWellFormed(t, st);
    var k := IndexOf(t, st.requestId);
    if 0 <= k {
      NewerAfterChange(t, i, k, st);
    } else if |t| < OTA_TRACKER_SIZE {
      NewerAfterAppend(t, i, st);
    } else {
      NotTheVictim(t, i, st.requestId, newer);
      NewerAfterEviction(t, i, Victim(t));
      NewerAfterAppend(Without(t, Victim(t)), if i < Victim(t) then i else i - 1, st);
    }
  }

  lemma {:induction false} RememberedAmongNewer(t: seq<Status>, i: nat, sts: seq<Status>, newer: set<RequestId>)
    requires WellFormed(t) && AtMostOneActive(t) && i < |t| && LegalRun(t, sts)
    requires IdsAfter(t, i) + NewIds(t, sts) <= newer && |newer| <= OTA_TRACKER_SIZE - 2
    ensures Lookup(RecordAll(t, sts), t[i].requestId) == Some(LastStatus(t[i].requestId, t[i], sts))
    decreases |sts|
  {
    LookupIsTheEntry(t, i);
    if sts != [] {
      var u := Updated(t, sts[0]);
      UpdatedKeepsWellFormed(t, sts[0]);
      LegalKeepsAtMostOneActive(t, sts[0]);
      NewerAfterUpdate(t, i, sts[0], newer);
      UpdateByRequest(t, sts[0], t[i].requestId);
      RememberedAmongNewer(u, IndexOf(u, t[i].requestId), sts[1..], newer);
    }
  }

  /**
   A request that just entered the record is still there, with the last status recorded for it,
   for as long as at most OTA_TRACKER_SIZE - 2 other requests entered after it: whatever was
   recorded, and even when an older request in flight makes the eviction skip over it.
   */
  lemma RememberedWhileFewAreNewer(t: seq<Status>, st: Status, sts: seq<Status>)
    requires WellFormed(t) && AtMostOneActive(t) && IndexOf(t, st.requestId) < 0
    requires LegalRun(t, [st] + sts)
    requires |NewIds(Updated(t, st), sts)| <= OTA_TRACKER_SIZE - 2
    ensures Lookup(RecordAll(t, [st] + sts), st.requestId) == Some(LastStatus(st.requestId, st, sts))
  {
    assert ([st] + sts)[1..] == sts;
    var u := Updated(t, st);
    UpdatedKeepsWellFormed(t, st);
    LegalKeepsAtMostOneActive(t, st);
    NewestEntry(t, st);
    RememberedAmongNewer(u, |u| - 1, sts, NewIds(u, sts));
  }

  lemma SecondIsTheVictim(t: seq<Status>)
    requires |t| == OTA_TRACKER_SIZE && IsActive(t[0].state) && !IsActive(t[1].state)
    ensures Victim(t) == 1 && Without(t, Victim(t)) == [t[0], t[2], t[3]]
  {
    assert t[1..][0] == t[1];
  }

  lemma ThreeRecordings(t: seq<Status>, x: Status, y: Status, z: Status)
    ensures var u := Updated(t, x);
            var v := Updated(u, y);
            && RecordAll(t, [x, y, z]) == Updated(v, z)
            && (IndexOf(t, x.requestId) < 0 && IndexOf(u, y.requestId) < 0 && IndexOf(v, z.requestId) < 0
                ==> NewIds(t, [x, y, z]) == {x.requestId, y.requestId, z.requestId})
  {
    var u := Updated(t, x);
    var v := Updated(u, y);
    assert [x, y, z][1..] == [y, z] && [y, z][1..] == [z] && [z][1..] == [];
    assert RecordAll(v, [z]) == Updated(v, z);
    assert NewIds(v, [z]) == if IndexOf(v, z.requestId) < 0 then {z.requestId} else {};
  }

  lemma {:induction false} InactiveIsLegal(t: seq<Status>, sts: seq<Status>)
    requires forall s :: s in sts ==> !IsActive(s.state)
    ensures LegalRun(t, sts)
    decreases |sts|
  {
    if sts != [] {
      assert sts[0] in sts;
      InactiveIsLegal(Updated(t, sts[0]), sts[1..]);
    }
  }

  lemma ThirdNewerEvicts(a: Status, r: Status, x: Status, y: Status, z: Status)
    requires DistinctIds([a, r, x, y, z]) && IsActive(a.state) && !IsActive(r.state)
    ensures Updated([a], r) == [a, r] && Updated([a, r], x) == [a, r, x] && Updated([a, r, x], y) == [a, r, x, y]
    ensures IndexOf([a, r], x.requestId) < 0 && IndexOf([a, r, x], y.requestId) < 0 && IndexOf([a, r, x, y], z.requestId) < 0
    ensures Updated([a, r, x, y], z) == [a, x, y, z] && IndexOf([a, x, y, z], r.requestId) < 0
    ensures |{x.requestId, y.requestId, z.requestId}| == 3
  {
    var t := [a, r, x, y, z];
    assert t[0] == a && t[1] == r && t[2] == x && t[3] == y && t[4] == z;
    SecondIsTheVictim([a, r, x, y]);
    ThreeDistinct(x.requestId, y.requestId, z.requestId, {x.requestId, y.requestId, z.requestId});
  }

  /** One more is too many: behind an older request in flight the third newer request evicts it. */
  lemma OneMoreIsTooMany(a: Status, r: Status, x: Status, y: Status, z: Status)
    requires DistinctIds([a, r, x, y, z])
    requires IsActive(a.state) && forall s :: s in [r, x, y, z] ==> !IsActive(s.state)
    ensures LegalRun([a], [r] + [x, y, z])
    ensures |NewIds(Updated([a], r), [x, y, z])| == OTA_TRACKER_SIZE - 1
    ensures Lookup(RecordAll([a], [r] + [x, y, z]), r.requestId) == None
  {
    assert [r] + [x, y, z] == [r, x, y, z] && [r, x, y, z][1..] == [x, y, z];
    assert r in [r, x, y, z];
    InactiveIsLegal([a], [r, x, y, z]);
    ThirdNewerEvicts(a, r, x, y, z);
    ThreeRecordings([a, r], x, y, z);
  }

  lemma RememberedBoundIsTight() returns (t: seq<Status>, st: Status, sts: seq<Status>)
    ensures WellFormed(t) && AtMostOneActive(t) && IndexOf(t, st.requestId) < 0
    ensures LegalRun(t, [st] + sts)
    ensures |NewIds(Updated(t, st), sts)| == OTA_TRACKER_SIZE - 1
    ensures Lookup(RecordAll(t, [st] + sts), st.requestId) == None
  {
    var a := Status("a", "2", Downloading, NoError, 0);
    var x, y, z := Status("x", "2", Rejected, Busy, -1), Status("y", "2", Rejected, Busy, -1), Status("z", "2", Rejected, Busy, -1);
    t, st, sts := [a], Status("r", "2", Rejected, Busy, -1), [x, y, z];
    OneMoreIsTooMany(a, st, x, y, z);
  }
}
