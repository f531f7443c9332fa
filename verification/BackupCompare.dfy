/** The structural diff of the backup check: compare in scripts/backup_manifest.py. */
module BackupCompare {
  import opened Names
  import opened Wrappers

  /** What json.loads and the catalogue queries produce; NaN and the infinities are not part of this model. */
  datatype Json =
    | Null
    | Bool(b: bool)
    | Num(n: real)
    | Str(s: string)
    | List(items: seq<Json>)
    | Obj(members: map<string, Json>)

  datatype Step = Key(key: string) | Index(index: nat)

  type Path = seq<Step>

  /** One line of the diff. */
  datatype Diff =
    | Missing(path: Path)
    | Unexpected(path: Path)
    | Different(path: Path, expected: Json, actual: Json)

  // ---------------------------------------------------------------- Python's ==

  /** True and False are the numbers 1 and 0 for ==; this is what is left of a value once they are. */
  function Norm(j: Json): Json {
    match j
    case Bool(b) => Num(if b then 1.0 else 0.0)
    case List(items) => List(seq(|items|, i requires 0 <= i < |items| => Norm(items[i])))
    case Obj(ms) => Obj(map k | k in ms :: Norm(ms[k]))
    case _ => j
  }

  predicate BothObjects(e: Json, a: Json) {
    e.Obj? && a.Obj?
  }

  predicate SameLengthLists(e: Json, a: Json) {
    e.List? && a.List? && |e.items| == |a.items|
  }

  /** `expected != actual` for values that compare does not take apart. */
  predicate LeafDiffers(e: Json, a: Json) {
    match (e, a)
    case (Null, Null) => false
    case (Str(s), Str(t)) => s != t
    case (Num(m), Num(n)) => m != n
    case (Bool(b), Bool(c)) => b != c
    case (Bool(b), Num(n)) => n != if b then 1.0 else 0.0
    case (Num(n), Bool(b)) => n != if b then 1.0 else 0.0
    case _ => true
  }

  // ---------------------------------------------------------------- the diff

  /** The line `d` belongs to the diff of `e` and `a`, its path being relative to them. */
  predicate IsDiff(e: Json, a: Json, d: Diff)
    decreases e
  {
    if BothObjects(e, a) then
      && d.path != [] && d.path[0].Key?
      && var k, deeper := d.path[0].key, d.(path := d.path[1..]);
      if k in e.members && k in a.members then IsDiff(e.members[k], a.members[k], deeper)
      else if k in e.members then d == Missing([Key(k)])
      else k in a.members && d == Unexpected([Key(k)])
    else if SameLengthLists(e, a) then
      && d.path != [] && d.path[0].Index? && d.path[0].index < |e.items|
      && IsDiff(e.items[d.path[0].index], a.items[d.path[0].index], d.(path := d.path[1..]))
    else LeafDiffers(e, a) && d == Different([], e, a)
  }

  /** The same with the whole path that is written. */
  predicate IsDiffAt(e: Json, a: Json, path: Path, d: Diff) {
    path <= d.path && IsDiff(e, a, d.(path := d.path[|path|..]))
  }

  function AllKeys(e: Json, a: Json): set<string>
    requires BothObjects(e, a)
  {
    e.members.Keys + a.members.Keys
  }

  /** The lines of the diff in their order: keys as sorted() gives them, items by index. */
  ghost function Lines(e: Json, a: Json, path: Path): seq<Diff>
    decreases e, 2, 0
  {
    if BothObjects(e, a) then LinesOfKeys(e, a, path, Sorted(AllKeys(e, a)))
    else if SameLengthLists(e, a) then LinesOfItems(e, a, path, |e.items|)
    else if LeafDiffers(e, a) then [Different(path, e, a)]
    else []
  }

  ghost function LinesOfKeys(e: Json, a: Json, path: Path, keys: seq<string>): seq<Diff>
    requires BothObjects(e, a) && forall k :: k in keys ==> k in AllKeys(e, a)
    decreases e, 1, |keys|
  {
    if keys == [] then []
    else LinesOfKeys(e, a, path, keys[..|keys| - 1]) + LinesOfKey(e, a, path, keys[|keys| - 1])
  }

  ghost function LinesOfKey(e: Json, a: Json, path: Path, k: string): seq<Diff>
    requires BothObjects(e, a) && k in AllKeys(e, a)
    decreases e, 0, 0
  {
    var child := path + [Key(k)];
    if k !in a.members then [Missing(child)]
    else if k !in e.members then [Unexpected(child)]
    else Lines(e.members[k], a.members[k], child)
  }

  ghost function LinesOfItems(e: Json, a: Json, path: Path, n: nat): seq<Diff>
    requires SameLengthLists(e, a) && n <= |e.items|
    decreases e, 1, n
  {
    if n == 0 then []
    else LinesOfItems(e, a, path, n - 1) + Lines(e.items[n - 1], a.items[n - 1], path + [Index(n - 1)])
  }

  lemma DeeperPath(path: Path, s: Step, d: Diff)
    ensures path + [s] <= d.path <==> path <= d.path && |path| < |d.path| && d.path[|path|] == s
    ensures path + [s] <= d.path ==> d.path[|path|..][1..] == d.path[|path + [s]|..] && d.path[|path|..][0] == s
  {
  }

  /** The lines below one key of two objects. */
  predicate IsDiffOfKey(e: Json, a: Json, path: Path, k: string, d: Diff)
    requires BothObjects(e, a)
  {
    IsDiffAt(e, a, path, d) && d.path[|path|] == Key(k)
  }

  lemma {:induction false} KeyLinesAreTheDiff(e: Json, a: Json, path: Path, k: string, d: Diff)
    requires BothObjects(e, a) && k in AllKeys(e, a)
    ensures d in LinesOfKey(e, a, path, k) <==> IsDiffOfKey(e, a, path, k, d)
    decreases e, 0, 0
  {
    var child := path + [Key(k)];
    assert child[|path|..] == [Key(k)];
    if IsDiffOfKey(e, a, path, k, d) {
      assert d.path == path + d.path[|path|..];
    }
    if k in a.members && k in e.members {
      LinesAreTheDiff(e.members[k], a.members[k], child, d);
      DeeperPath(path, Key(k), d);
    }
  }

  lemma {:induction false} KeysLinesAreTheDiff(e: Json, a: Json, path: Path, keys: seq<string>, d: Diff)
    requires BothObjects(e, a) && forall k :: k in keys ==> k in AllKeys(e, a)
    ensures d in LinesOfKeys(e, a, path, keys) <==> IsDiffAt(e, a, path, d) && d.path[|path|].key in keys
    decreases e, 1, |keys|
  {
    if keys != [] {
      KeysLinesAreTheDiff(e, a, path, keys[..|keys| - 1], d);
      KeyLinesAreTheDiff(e, a, path, keys[|keys| - 1], d);
    }
  }

  lemma {:induction false} ItemsLinesAreTheDiff(e: Json, a: Json, path: Path, n: nat, d: Diff)
    requires SameLengthLists(e, a) && n <= |e.items|
    ensures d in LinesOfItems(e, a, path, n) <==> IsDiffAt(e, a, path, d) && d.path[|path|].index < n
    decreases e, 1, n
  {
    if n > 0 {
      ItemsLinesAreTheDiff(e, a, path, n - 1, d);
      LinesAreTheDiff(e.items[n - 1], a.items[n - 1], path + [Index(n - 1)], d);
      DeeperPath(path, Index(n - 1), d);
    }
  }

  /** The lines are those that belong to the diff, and no other ones. */
  lemma {:induction false} LinesAreTheDiff(e: Json, a: Json, path: Path, d: Diff)
    ensures d in Lines(e, a, path) <==> IsDiffAt(e, a, path, d)
    decreases e, 2, 0
  {
    if BothObjects(e, a) {
      KeysLinesAreTheDiff(e, a, path, Sorted(AllKeys(e, a)), d);
    } else if SameLengthLists(e, a) {
      ItemsLinesAreTheDiff(e, a, path, |e.items|, d);
    } else if LeafDiffers(e, a) {
      assert IsDiffAt(e, a, path, d) <==> d == Different(path, e, a);
    }
  }

  lemma AllLinesAreTheDiff(e: Json, a: Json, path: Path)
    ensures forall d :: d in Lines(e, a, path) <==> IsDiffAt(e, a, path, d)
  {
    forall d
      ensures d in Lines(e, a, path) <==> IsDiffAt(e, a, path, d)
    {
      LinesAreTheDiff(e, a, path, d);
    }
  }

  /** Every line of the diff and no other one, in the order of the keys and the items. */
  method Compare(e: Json, a: Json, path: Path) returns (diffs: seq<Diff>)
    ensures diffs == Lines(e, a, path)
    ensures forall d :: d in diffs <==> IsDiffAt(e, a, path, d)
    decreases e, 3
  {
    diffs := [];
    if e.Obj? && a.Obj? {
      diffs := CompareObjects(e, a, path);
    } else if e.List? && a.List? && |e.items| == |a.items| {
      diffs := CompareLists(e, a, path);
    } else if LeafDiffers(e, a) {
      diffs := [Different(path, e, a)];
    }
    AllLinesAreTheDiff(e, a, path);
  }

  method CompareKey(e: Json, a: Json, path: Path, k: string) returns (diffs: seq<Diff>)
    requires BothObjects(e, a) && k in AllKeys(e, a)
    ensures diffs == LinesOfKey(e, a, path, k)
    decreases e, 0
  {
    var child := path + [Key(k)];
    if k !in a.members {
      diffs := [Missing(child)];
    } else if k !in e.members {
      diffs := [Unexpected(child)];
    } else {
      diffs := Compare(e.members[k], a.members[k], child);
    }
  }

  lemma OneKeyMore(e: Json, a: Json, path: Path, done: seq<string>, k: string)
    requires BothObjects(e, a) && k in AllKeys(e, a) && forall x :: x in done ==> x in AllKeys(e, a)
    ensures LinesOfKeys(e, a, path, done + [k]) == LinesOfKeys(e, a, path, done) + LinesOfKey(e, a, path, k)
  {
    assert (done + [k])[..|done|] == done;
  }

  method CompareKeys(e: Json, a: Json, path: Path) returns (diffs: seq<Diff>)
    requires BothObjects(e, a)
    ensures diffs == LinesOfKeys(e, a, path, Sorted(AllKeys(e, a)))
    decreases e, 1
  {
    diffs := [];
    var todo := AllKeys(e, a);
    ghost var done: seq<string> := [];
    while todo != {}
      invariant todo <= AllKeys(e, a)
      invariant SortedSoFar(AllKeys(e, a), done, todo)
      invariant diffs == LinesOfKeys(e, a, path, done)
      decreases |todo|
    {
      var k := Least(todo);
      OneNameMore(AllKeys(e, a), done, todo, k);
      OneKeyMore(e, a, path, done, k);
      var more := CompareKey(e, a, path, k);
      diffs, done := diffs + more, done + [k];
      todo := todo - {k};
    }
    AllSorted(AllKeys(e, a), done);
  }

  /** Key by key, in the order of the keys. */
  method CompareObjects(e: Json, a: Json, path: Path) returns (diffs: seq<Diff>)
    requires BothObjects(e, a)
    ensures diffs == Lines(e, a, path)
    ensures forall d :: d in diffs <==> IsDiffAt(e, a, path, d)
    decreases e, 2
  {
    diffs := CompareKeys(e, a, path);
    AllLinesAreTheDiff(e, a, path);
  }

  method CompareLists(e: Json, a: Json, path: Path) returns (diffs: seq<Diff>)
    requires SameLengthLists(e, a)
    ensures diffs == Lines(e, a, path)
    ensures forall d :: d in diffs <==> IsDiffAt(e, a, path, d)
    decreases e, 0
  {
    diffs := [];
    for i := 0 to |e.items|
      invariant diffs == LinesOfItems(e, a, path, i)
    {
      var more := Compare(e.items[i], a.items[i], path + [Index(i)]);
      diffs := diffs + more;
    }
    AllLinesAreTheDiff(e, a, path);
  }

  // ---------------------------------------------------------------- when there is nothing to report

  lemma {:induction false} EqualValuesHaveNoDiff(e: Json, a: Json, d: Diff)
    requires Norm(e) == Norm(a)
    ensures !IsDiff(e, a, d)
    decreases e
  {
    if BothObjects(e, a) {
      assert Norm(e).members.Keys == e.members.Keys && Norm(a).members.Keys == a.members.Keys;
      if d.path != [] && d.path[0].Key? && d.path[0].key in e.members {
        var k := d.path[0].key;
        assert Norm(e).members[k] == Norm(e.members[k]) && Norm(a).members[k] == Norm(a.members[k]);
        EqualValuesHaveNoDiff(e.members[k], a.members[k], d.(path := d.path[1..]));
      }
    } else if SameLengthLists(e, a) {
      if d.path != [] && d.path[0].Index? && d.path[0].index < |e.items| {
        var i := d.path[0].index;
        assert Norm(e).items[i] == Norm(e.items[i]) && Norm(a).items[i] == Norm(a.items[i]);
        EqualValuesHaveNoDiff(e.items[i], a.items[i], d.(path := d.path[1..]));
      }
    } else {
      NormKeepsLengths(e);
      NormKeepsLengths(a);
    }
  }

  lemma NormKeepsLengths(j: Json)
    ensures j.List? ==> Norm(j).List? && |Norm(j).items| == |j.items|
  {
  }

  function Below(s: Step, d: Diff): Diff {
    d.(path := [s] + d.path)
  }

  lemma BelowIsDeeper(s: Step, d: Diff)
    ensures Below(s, d).path[0] == s && Below(s, d).(path := Below(s, d).path[1..]) == d
  {
  }

  lemma {:induction false} DifferentValuesHaveADiff(e: Json, a: Json) returns (d: Diff)
    requires Norm(e) != Norm(a)
    ensures IsDiff(e, a, d)
    decreases e
  {
    if BothObjects(e, a) {
      if k :| k in e.members && k !in a.members {
        d := Missing([Key(k)]);
      } else if k :| k in a.members && k !in e.members {
        d := Unexpected([Key(k)]);
      } else {
        var k := DifferentKey(e, a);
        var below := DifferentValuesHaveADiff(e.members[k], a.members[k]);
        d := Below(Key(k), below);
        BelowIsDeeper(Key(k), below);
      }
    } else if SameLengthLists(e, a) {
      var i := DifferentItem(e, a);
      var below := DifferentValuesHaveADiff(e.items[i], a.items[i]);
      d := Below(Index(i), below);
      BelowIsDeeper(Index(i), below);
    } else {
      d := Different([], e, a);
    }
  }

  lemma DifferentKey(e: Json, a: Json) returns (k: string)
    requires BothObjects(e, a) && e.members.Keys == a.members.Keys && Norm(e) != Norm(a)
    ensures k in e.members && k in a.members && Norm(e.members[k]) != Norm(a.members[k])
  {
    EqualOrADifferentKey(e, a);
    k :| k in e.members && Norm(e.members[k]) != Norm(a.members[k]);
  }

  lemma EqualOrADifferentKey(e: Json, a: Json)
    requires BothObjects(e, a) && e.members.Keys == a.members.Keys
    ensures Norm(e) == Norm(a) || exists k :: k in e.members && Norm(e.members[k]) != Norm(a.members[k])
  {
    if forall k :: k in e.members ==> Norm(e.members[k]) == Norm(a.members[k]) {
      assert Norm(e).members == Norm(a).members;
    }
  }

  lemma DifferentItem(e: Json, a: Json) returns (i: nat)
    requires SameLengthLists(e, a) && Norm(e) != Norm(a)
    ensures i < |e.items| && Norm(e.items[i]) != Norm(a.items[i])
  {
    EqualOrADifferentItem(e, a);
    i :| i < |e.items| && Norm(e.items[i]) != Norm(a.items[i]);
  }

  lemma EqualOrADifferentItem(e: Json, a: Json)
    requires SameLengthLists(e, a)
    ensures Norm(e) == Norm(a) || exists i: nat :: i < |e.items| && Norm(e.items[i]) != Norm(a.items[i])
  {
    if forall i :: 0 <= i < |e.items| ==> Norm(e.items[i]) == Norm(a.items[i]) {
      assert Norm(e).items == Norm(a).items;
    }
  }

  ghost predicate NoDiff(e: Json, a: Json, path: Path) {
    forall d :: !IsDiffAt(e, a, path, d)
  }

  /** The diff is empty exactly when the two values are the same up to True being 1 and False being 0. */
  lemma EmptyExactlyWhenEqual(e: Json, a: Json, path: Path)
    ensures NoDiff(e, a, path) <==> Norm(e) == Norm(a)
  {
    if Norm(e) == Norm(a) {
      forall d ensures !IsDiffAt(e, a, path, d) {
        if path <= d.path {
          EqualValuesHaveNoDiff(e, a, d.(path := d.path[|path|..]));
        }
      }
    } else {
      var d := DifferentValuesHaveADiff(e, a);
      var whole := d.(path := path + d.path);
      assert whole.path[|path|..] == d.path;
      assert whole.(path := whole.path[|path|..]) == d;
      assert IsDiffAt(e, a, path, whole);
    }
  }

  /** compare as verify uses it: is there a line? */
  method IsSame(e: Json, a: Json) returns (same: bool)
    ensures same <==> Norm(e) == Norm(a)
  {
    var diffs := Compare(e, a, [Key("database")]);
    EmptyExactlyWhenEqual(e, a, [Key("database")]);
    assert diffs != [] ==> IsDiffAt(e, a, [Key("database")], diffs[0]);
    same := diffs == [];
  }

  predicate NoBooleans(j: Json) {
    match j
    case Bool(_) => false
    case List(items) => forall i :: 0 <= i < |items| ==> NoBooleans(items[i])
    case Obj(ms) => forall k :: k in ms ==> NoBooleans(ms[k])
    case _ => true
  }

  lemma {:induction false} NormKeepsTheRest(j: Json)
    requires NoBooleans(j)
    ensures Norm(j) == j
    decreases j
  {
    match j {
      case List(items) =>
        forall i | 0 <= i < |items| ensures Norm(j).items[i] == items[i] {
          NormKeepsTheRest(items[i]);
        }
        assert Norm(j).items == items;
      case Obj(ms) =>
        forall k | k in ms ensures Norm(j).members[k] == ms[k] {
          NormKeepsTheRest(ms[k]);
        }
        assert Norm(j).members == ms;
      case _ =>
    }
  }

  /** Without booleans in them, an empty diff means that the two documents are the same. */
  lemma ExactWithoutBooleans(e: Json, a: Json, path: Path)
    requires NoBooleans(e) && NoBooleans(a)
    ensures NoDiff(e, a, path) <==> e == a
  {
    NormKeepsTheRest(e);
    NormKeepsTheRest(a);
    EmptyExactlyWhenEqual(e, a, path);
  }

  /** With them it need not: true where the manifest says 1 is not reported. */
  lemma TruePassesForOne(path: Path)
    ensures Bool(true) != Num(1.0) && NoDiff(Bool(true), Num(1.0), path)
  {
    EmptyExactlyWhenEqual(Bool(true), Num(1.0), path);
  }

  // ---------------------------------------------------------------- what a line says

  /** What a document holds at the end of a path. */
  function ValueAt(j: Json, path: Path): Option<Json>
    decreases |path|
  {
    if path == [] then Some(j)
    else match path[0]
      case Key(k) => if j.Obj? && k in j.members then ValueAt(j.members[k], path[1..]) else None
      case Index(i) => if j.List? && i < |j.items| then ValueAt(j.items[i], path[1..]) else None
  }

  /** A line tells the truth: what is missing, what is there besides, or which two values stand in the same place. */
  predicate TellsTheTruth(e: Json, a: Json, d: Diff) {
    match d
    case Missing(p) => ValueAt(e, p).Some? && ValueAt(a, p).None?
    case Unexpected(p) => ValueAt(e, p).None? && ValueAt(a, p).Some?
    case Different(p, x, y) => ValueAt(e, p) == Some(x) && ValueAt(a, p) == Some(y) && Norm(x) != Norm(y)
  }

  lemma OneStepDown(j: Json, s: Step, rest: Path)
    ensures ValueAt(j, [s] + rest) ==
            match s
            case Key(k) => if j.Obj? && k in j.members then ValueAt(j.members[k], rest) else None
            case Index(i) => if j.List? && i < |j.items| then ValueAt(j.items[i], rest) else None
  {
    assert ([s] + rest)[1..] == rest;
  }

  lemma {:induction false} LinesTellTheTruth(e: Json, a: Json, d: Diff)
    requires IsDiff(e, a, d)
    ensures TellsTheTruth(e, a, d)
    decreases e
  {
    if BothObjects(e, a) {
      var k, deeper := d.path[0].key, d.(path := d.path[1..]);
      if k in e.members && k in a.members {
        LinesTellTheTruth(e.members[k], a.members[k], deeper);
      } else {
        assert d.path[1..] == [];
      }
    } else if SameLengthLists(e, a) {
      var i := d.path[0].index;
      LinesTellTheTruth(e.items[i], a.items[i], d.(path := d.path[1..]));
    } else {
      EmptyLeafMeansEqual(e, a);
    }
  }

  lemma EmptyLeafMeansEqual(e: Json, a: Json)
    requires !BothObjects(e, a) && !SameLengthLists(e, a)
    ensures LeafDiffers(e, a) <==> Norm(e) != Norm(a)
  {
    NormKeepsLengths(e);
    NormKeepsLengths(a);
  }

  function NormAt(j: Json, path: Path): Option<Json> {
    match ValueAt(j, path) case None => None case Some(v) => Some(Norm(v))
  }

  lemma AroundThePath(s: Step, below: Diff, path: Path)
    requires path != [] && path[0] == s && (below.path <= path[1..] || path[1..] <= below.path)
    ensures Below(s, below).path <= path || path <= Below(s, below).path
  {
    assert path == [s] + path[1..];
  }

  /** Wherever the two documents differ there is a line, for that place, for one on the way to it or for one inside it. */
  lemma {:induction false} EveryDifferenceShows(e: Json, a: Json, path: Path) returns (d: Diff)
    requires NormAt(e, path) != NormAt(a, path)
    ensures IsDiff(e, a, d) && (d.path <= path || path <= d.path)
    decreases |path|
  {
    if path == [] {
      d := DifferentValuesHaveADiff(e, a);
    } else if BothObjects(e, a) {
      var k := path[0].key;
      if k in e.members && k in a.members {
        var below := EveryDifferenceShows(e.members[k], a.members[k], path[1..]);
        d := Below(Key(k), below);
        BelowIsDeeper(Key(k), below);
        AroundThePath(Key(k), below, path);
      } else {
        d := if k in e.members then Missing([Key(k)]) else Unexpected([Key(k)]);
      }
    } else if SameLengthLists(e, a) {
      var i := path[0].index;
      var below := EveryDifferenceShows(e.items[i], a.items[i], path[1..]);
      d := Below(Index(i), below);
      BelowIsDeeper(Index(i), below);
      AroundThePath(Index(i), below, path);
    } else {
      d := Different([], e, a);
    }
  }
}
