/** The persisted snapshot and the crash-safe file replacement that stores it. */
module StateStore {
  import opened RealMath
  import opened PidCore

  const STATE_SCHEMA_VERSION := 1

  datatype StateSnapshot = StateSnapshot(
    schemaVersion: nat,
    kp: Option<real>,
    ki: Option<real>,
    kd: Option<real>,
    setpoint: Option<real>,
    limits: Limits,
    effectiveSp: Option<real>,
    targetSp: Option<real>,
    iAcc: real,
    lastError: Option<real>,
    lastCv: Option<real>,
    lastPv: Option<real>,
    iter: nat) {

    function RuntimeState(): PidRuntimeState {
      PidRuntimeState(iAcc, lastPv, lastError, lastCv, effectiveSp)
    }

    predicate Supported() {
      schemaVersion <= STATE_SCHEMA_VERSION
    }
  }

  const DEFAULT_SNAPSHOT :=
    StateSnapshot(STATE_SCHEMA_VERSION, None, None, None, None, Limits(None, None), None, None, 0.0,
                  None, None, None, 0)

  // ---------- saving: create a temporary file, write, sync, rename ----------

  /** `synced` says the contents survive a crash; otherwise any prefix of them may. */
  datatype File = File(data: string, synced: bool)

  type FileSystem = map<string, File>

  datatype Phase = Start | Writing | Written | Synced | Failed | Done(ok: bool)

  datatype SaveState = SaveState(fs: FileSystem, phase: Phase)

  /** The temporary file lives beside the target; `tag` is the process id and counter. */
  function TempName(name: string, tag: string): (temp: string)
    ensures temp != name
  {
    "." + name + ".tmp-" + tag
  }

  /** One effect of `save`. Every effect before `Done` may also fail, and the clean-up may fail too. */
  ghost predicate SaveStep(name: string, temp: string, json: string, s: SaveState, t: SaveState) {
    match s.phase
    case Start =>
      // create_new refuses an existing file
      (temp !in s.fs && t == SaveState(s.fs[temp := File("", false)], Writing)) || t == s.(phase := Failed)
    case Writing =>
      || t == s.(phase := Failed)
      || (temp in s.fs && s.fs[temp].data < json &&
          t == s.(fs := s.fs[temp := File(json[..|s.fs[temp].data| + 1], false)]))
      || (temp in s.fs && s.fs[temp].data == json && t == s.(phase := Written))
    case Written =>
      || t == s.(phase := Failed)
      || (temp in s.fs && t == SaveState(s.fs[temp := s.fs[temp].(synced := true)], Synced))
    case Synced =>
      || t == s.(phase := Failed)
      || (temp in s.fs && t == SaveState((s.fs - {temp})[name := s.fs[temp]], Done(true)))
    case Failed =>
      t == s.(phase := Done(false)) || t == SaveState(s.fs - {temp}, Done(false))
    case Done(_) => false
  }

  ghost predicate SaveRun(name: string, temp: string, json: string, run: seq<SaveState>) {
    && run != []
    && run[0].phase == Start
    && forall i :: 0 <= i < |run| - 1 ==> SaveStep(name, temp, json, run[i], run[i + 1])
  }

  /** The name `f` after power loss, if the directory entry that survives is the one of `fs`: a synced
      file is whole, of another any prefix may be left. */
  ghost predicate Survives(f: string, fs: FileSystem, after: FileSystem) {
    if f !in fs then f !in after
    else f in after && if fs[f].synced then after[f] == fs[f] else after[f].data <= fs[f].data
  }

  ghost predicate SurvivesFromOneOf(f: string, run: seq<SaveState>, first: nat, last: nat, after: FileSystem)
    requires last < |run|
  {
    exists j :: first <= j <= last && Survives(f, run[j].fs, after)
  }

  /** What a machine may find after losing power behind `run[last]`. `save` never syncs the directory:
      of every name any entry it had since `run[first]`, the last sync of the directory, may survive,
      independently of the other names. */
  ghost predicate CrashImage(run: seq<SaveState>, first: nat, last: nat, after: FileSystem)
    requires last < |run|
  {
    forall f :: SurvivesFromOneOf(f, run, first, last, after)
  }

  ghost predicate SameTarget(name: string, fs: FileSystem, gs: FileSystem) {
    (name in fs <==> name in gs) && (name in fs ==> fs[name] == gs[name])
  }

  /** Until the rename the target is untouched and the temporary file holds a prefix of the text;
      from the sync on it holds all of it, durably. */
  ghost predicate SaveInv(name: string, temp: string, json: string, initial: FileSystem, s: SaveState) {
    && (forall f :: f != name && f != temp ==> (f in s.fs <==> f in initial) && (f in s.fs ==> s.fs[f] == initial[f]))
    && (s.phase == Done(true) ==> name in s.fs && s.fs[name] == File(json, true) && temp !in s.fs)
    && (s.phase != Done(true) ==> SameTarget(name, s.fs, initial))
    && (s.phase == Writing ==> temp in s.fs && s.fs[temp].data <= json)
    && (s.phase == Written ==> temp in s.fs && s.fs[temp].data == json)
    && (s.phase == Synced ==> temp in s.fs && s.fs[temp] == File(json, true))
  }

  lemma SaveInvStep(name: string, temp: string, json: string, initial: FileSystem, s: SaveState, t: SaveState)
    requires temp != name && SaveInv(name, temp, json, initial, s) && SaveStep(name, temp, json, s, t)
    ensures SaveInv(name, temp, json, initial, t)
  {
  }

  lemma {:induction false} SaveInvRun(name: string, temp: string, json: string, run: seq<SaveState>, i: nat)
    requires temp != name && SaveRun(name, temp, json, run) && i < |run|
    ensures SaveInv(name, temp, json, run[0].fs, run[i])
  {
    if i > 0 {
      SaveInvRun(name, temp, json, run, i - 1);
      assert SaveStep(name, temp, json, run[i - 1], run[i - 1 + 1]);
      SaveInvStep(name, temp, json, run[0].fs, run[i - 1], run[i]);
    }
  }

  ghost predicate FilesSynced(fs: FileSystem, temp: string) {
    forall f :: f in fs && f != temp ==> fs[f].synced
  }

  /** Power loss between any two effects of `save`, or after it, leaves either the old target or the
      complete new one - before the rename always the old one - and every other file except the
      temporary one as it was. */
  lemma SaveIsCrashSafe(name: string, tag: string, json: string, run: seq<SaveState>, i: nat, after: FileSystem)
    requires SaveRun(name, TempName(name, tag), json, run) && i < |run|
    requires FilesSynced(run[0].fs, TempName(name, tag)) && CrashImage(run, 0, i, after)
    ensures SameTarget(name, after, run[0].fs) || (name in after && after[name] == File(json, true))
    ensures run[i].phase != Done(true) ==> SameTarget(name, after, run[0].fs)
    ensures forall f :: f in run[0].fs && f != name && f != TempName(name, tag)
              ==> f in after && after[f] == run[0].fs[f]
  {
    var temp := TempName(name, tag);
    assert SurvivesFromOneOf(name, run, 0, i, after);
    var k :| 0 <= k <= i && Survives(name, run[k].fs, after);
    SaveInvRun(name, temp, json, run, k);
    DoneStays(name, temp, json, run, k, i);
    forall f | f in run[0].fs && f != name && f != temp ensures f in after && after[f] == run[0].fs[f] {
      assert SurvivesFromOneOf(f, run, 0, i, after);
      var j :| 0 <= j <= i && Survives(f, run[j].fs, after);
      SaveInvRun(name, temp, json, run, j);
    }
  }

  lemma {:induction false} DoneStays(name: string, temp: string, json: string, run: seq<SaveState>, k: nat, i: nat)
    requires SaveRun(name, temp, json, run) && k <= i < |run|
    ensures run[k].phase == Done(true) ==> run[i].phase == Done(true)
    decreases i
  {
    if k < i {
      DoneStays(name, temp, json, run, k, i - 1);
      assert SaveStep(name, temp, json, run[i - 1], run[i - 1 + 1]);
    }
  }

  /** The new file is certain to survive, and the temporary name to be gone, once the directory has been
      synced after the rename - which is left to the operating system. */
  lemma SyncedDirectoryKeepsSave(
      name: string, tag: string, json: string, run: seq<SaveState>, i: nat, after: FileSystem)
    requires SaveRun(name, TempName(name, tag), json, run) && i < |run| && run[i].phase == Done(true)
    requires CrashImage(run, i, i, after)
    ensures name in after && after[name] == File(json, true) && TempName(name, tag) !in after
  {
    SaveInvRun(name, TempName(name, tag), json, run, i);
    assert SurvivesFromOneOf(name, run, i, i, after) && SurvivesFromOneOf(TempName(name, tag), run, i, i, after);
  }

  /** Before that a save that reported success can be lost: wherever the last sync of the directory fell
      before the rename, the target may come back as it was before the save, or both names may hold the new
      text. */
  lemma SuccessCanBeLost(name: string, tag: string, json: string, run: seq<SaveState>, first: nat, i: nat)
    requires SaveRun(name, TempName(name, tag), json, run) && first < i < |run| && run[i].phase == Done(true)
    ensures CrashImage(run, first, i, run[first].fs) && SameTarget(name, run[first].fs, run[0].fs)
    ensures exists after :: CrashImage(run, first, i, after)
              && name in after && TempName(name, tag) in after && after[TempName(name, tag)] == after[name]
  {
    forall f ensures SurvivesFromOneOf(f, run, first, i, run[first].fs) {
      assert Survives(f, run[first].fs, run[first].fs);
    }
    var temp := TempName(name, tag);
    var j := SyncedBefore(name, temp, json, run, i);
    SaveInvRun(name, temp, json, run, i);
    SaveInvRun(name, temp, json, run, j);
    SaveInvRun(name, temp, json, run, first);
    NotYetDone(name, temp, json, run, first, i);
    var both := run[i].fs[temp := File(json, true)];
    forall f ensures SurvivesFromOneOf(f, run, first, i, both) {
      assert if f == temp then Survives(f, run[j].fs, both) else Survives(f, run[i].fs, both);
    }
    assert CrashImage(run, first, i, both);
  }

  /** Success is the last state of a run. */
  lemma {:induction false} NotYetDone(name: string, temp: string, json: string, run: seq<SaveState>, k: nat, i: nat)
    requires SaveRun(name, temp, json, run) && k < i < |run|
    ensures !run[k].phase.Done?
  {
    assert SaveStep(name, temp, json, run[k], run[k + 1]);
  }

  /** The exact condition for durability: unless the old target was the new text already, a save that
      reported success survives every crash exactly when the directory was synced after the rename. */
  lemma DurableIff(name: string, tag: string, json: string, run: seq<SaveState>, first: nat, i: nat)
    requires SaveRun(name, TempName(name, tag), json, run) && first <= i < |run| && run[i].phase == Done(true)
    requires !(name in run[0].fs && run[0].fs[name] == File(json, true))
    ensures (forall after :: CrashImage(run, first, i, after) ==> name in after && after[name] == File(json, true))
            <==> first == i
  {
    if first == i {
      forall after | CrashImage(run, i, i, after) ensures name in after && after[name] == File(json, true) {
        SyncedDirectoryKeepsSave(name, tag, json, run, i, after);
      }
    } else {
      SuccessCanBeLost(name, tag, json, run, first, i);
    }
  }

  lemma SyncedBefore(name: string, temp: string, json: string, run: seq<SaveState>, i: nat)
    returns (j: nat)
    requires SaveRun(name, temp, json, run) && i < |run| && run[i].phase == Done(true)
    ensures j == i - 1 && run[j].phase == Synced
  {
    assert SaveStep(name, temp, json, run[i - 1], run[i - 1 + 1]);
    j := i - 1;
  }

  /** A save that nothing disturbs can be carried to success whenever the temporary name is free. */
  lemma SaveCanSucceed(name: string, tag: string, json: string, fs: FileSystem) returns (run: seq<SaveState>)
    requires TempName(name, tag) !in fs
    ensures SaveRun(name, TempName(name, tag), json, run) && run[0].fs == fs && run[|run| - 1].phase == Done(true)
  {
    var temp := TempName(name, tag);
    var s := SaveState(fs[temp := File("", false)], Writing);
    run := [SaveState(fs, Start), s];
    var n := 0;
    while n < |json|
      invariant n <= |json| && |run| >= 2 && run[0] == SaveState(fs, Start)
      invariant s == run[|run| - 1] && s.phase == Writing && temp in s.fs && s.fs[temp].data == json[..n]
      invariant SaveRun(name, temp, json, run)
    {
      var t := s.(fs := s.fs[temp := File(json[..n + 1], false)]);
      assert |s.fs[temp].data| == n && s.fs[temp].data < json;
      assert SaveStep(name, temp, json, s, t);
      run := run + [t];
      s := t;
      n := n + 1;
    }
    assert s.fs[temp].data == json;
    var w := s.(phase := Written);
    var y := SaveState(w.fs[temp := w.fs[temp].(synced := true)], Synced);
    var d := SaveState((y.fs - {temp})[name := y.fs[temp]], Done(true));
    assert SaveStep(name, temp, json, s, w) && SaveStep(name, temp, json, w, y) && SaveStep(name, temp, json, y, d);
    run := run + [w, y, d];
  }
}
