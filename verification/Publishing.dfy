// Replacing the current artifact (`CurrentArtifactStore.publish`) as a system of steps over an
// abstract file system.  Any step may fail; a rename happens whole or not at all, while writing and
// removing a directory may stop halfway.
module Publishing {

  type Files = map<string, string>

  // What is found under a path.
  datatype Content = Absent | NotADirectory | Directory(files: Files)

  // What loading accepts, and the files written for the snapshot to publish.
  datatype Setting = Setting(loads: Files -> bool, written: Files)

  datatype Stage =
    | CheckingPath
    | LoadingCurrent
    | MakingStaging
    | Writing
    | Validating
    | MovingCurrent
    | Promoting
    | Restoring
    | CleaningStaging(raising: bool)
    | RemovingBackup
    | Returned
    | Raised

  datatype State = State(stage: Stage, target: Content, backup: Content, staging: Content, movedCurrent: bool)

  // Whether the step under way succeeds; `residue` is what a failed write or removal leaves behind.
  datatype Outcome = Succeeds | Fails(residue: Content)

  // Staging and backup have fresh names.
  function Begin(target: Content): State { State(CheckingPath, target, Absent, Absent, false) }

  predicate Finished(s: State) { s.stage == Returned || s.stage == Raised }

  function Step(w: Setting, s: State, o: Outcome): State {
    match s.stage
    case CheckingPath =>
      if s.target == NotADirectory then s.(stage := Raised)
      else if s.target == Absent then s.(stage := MakingStaging)
      else s.(stage := LoadingCurrent)
    case LoadingCurrent =>
      if o.Succeeds? && s.target.Directory?
      && w.loads(s.target.files) then s.(stage := MakingStaging) else s.(stage := Raised)
    case MakingStaging =>
      if o.Succeeds? then s.(stage := Writing, staging := Directory(map[])) else s.(stage := Raised)
    case Writing =>
      if o.Succeeds? then s.(stage := Validating, staging := Directory(w.written))
      else s.(stage := CleaningStaging(true), staging := o.residue)
    case Validating =>
      if o.Succeeds? && s.staging.Directory? && w.loads(s.staging.files)
      then s.(stage := if s.target == Absent then Promoting else MovingCurrent)
      else s.(stage := CleaningStaging(true))
    case MovingCurrent =>
      if o.Succeeds? then s.(stage := Promoting, target := Absent, backup := s.target, movedCurrent := true)
      else s.(stage := CleaningStaging(true))
    case Promoting =>
      if o.Succeeds? then s.(stage := CleaningStaging(false), target := s.staging, staging := Absent)
      else if s.movedCurrent then s.(stage := Restoring)
      else s.(stage := CleaningStaging(true))
    case Restoring =>
      if o.Succeeds?
        then s.(stage := CleaningStaging(true), target := s.backup, backup := Absent, movedCurrent := false)
      else s.(stage := CleaningStaging(true))
    case CleaningStaging(raising) =>
      var next := if raising then Raised else if s.movedCurrent then RemovingBackup else Returned;
      if s.staging == Absent then s.(stage := next)
      else if o.Succeeds? then s.(stage := next, staging := Absent)
      else s.(stage := Raised, staging := o.residue)
    case RemovingBackup =>
      if o.Succeeds? then s.(stage := Returned, backup := Absent) else s.(stage := Raised, backup := o.residue)
    case _ => s
  }

  // The states of a run, step by step.
  ghost predicate Runs(w: Setting, target: Content, outcomes: seq<Outcome>, states: seq<State>) {
    && |states| == |outcomes| + 1 && states[0] == Begin(target)
    && forall i :: 0 <= i < |outcomes| ==> states[i + 1] == Step(w, states[i], outcomes[i])
  }

  // ---------- what every step keeps ----------

  predicate IsNew(w: Setting, c: Content) { c == Directory(w.written) && w.loads(w.written) }

  // Where the current artifact and its replacement are at each stage.
  predicate Placed(w: Setting, current: Content, s: State) {
    match s.stage
    case CheckingPath | LoadingCurrent | MakingStaging =>
      s.target == current && s.backup == Absent && s.staging == Absent && !s.movedCurrent
    case Writing => s.target == current && s.backup == Absent && !s.movedCurrent
    case Validating => s.target == current && s.backup == Absent && !s.movedCurrent && s.staging == Directory(w.written)
    case MovingCurrent =>
      s.target == current && current != Absent && s.backup == Absent && !s.movedCurrent && IsNew(w, s.staging)
    case Promoting =>
      && s.target == Absent && IsNew(w, s.staging)
      && s.backup == current && (s.movedCurrent <==> current != Absent)
    case Restoring => s.target == Absent && s.backup == current && s.movedCurrent && IsNew(w, s.staging)
    case CleaningStaging(true) =>
      || (s.target == current && s.backup == Absent && !s.movedCurrent)
      || (s.target == Absent && s.backup == current && s.movedCurrent)
    case CleaningStaging(false) =>
      IsNew(w, s.target) && s.backup == current && s.staging == Absent && (s.movedCurrent <==> current != Absent)
    case RemovingBackup => IsNew(w, s.target) && s.backup == current && s.staging == Absent && s.movedCurrent
    case Returned => IsNew(w, s.target) && s.backup == Absent && s.staging == Absent
    case Raised =>
      || (s.target == current && s.backup == Absent)                       // nothing was replaced
      || (s.target == Absent && s.backup == current && s.movedCurrent)     // restoring failed
      || (IsNew(w, s.target) && s.movedCurrent && s.staging == Absent) // only removing the backup failed
  }

  lemma StepKeeps(w: Setting, current: Content, s: State, o: Outcome)
    requires Placed(w, current, s)
    ensures Placed(w, current, Step(w, s, o))
  {}

  lemma {:induction false} Always(w: Setting, current: Content, outcomes: seq<Outcome>, states: seq<State>, i: nat)
    requires Runs(w, current, outcomes, states) && i < |states|
    ensures Placed(w, current, states[i])
    decreases i
  {
    if i == 0 {
    } else {
      Always(w, current, outcomes, states, i - 1);
      assert states[i] == Step(w, states[i - 1], outcomes[i - 1]);
      StepKeeps(w, current, states[i - 1], outcomes[i - 1]);
    }
  }

  // ---------- every run ----------

  // With an artifact in place, whenever the program stops, a complete one, old or new, is at the
  // target or the backup, and the target is never anything in between.
  lemma AlwaysOneComplete(w: Setting, current: Files, outcomes: seq<Outcome>, states: seq<State>, i: nat)
    requires Runs(w, Directory(current), outcomes, states) && i < |states| && w.loads(current)
    ensures var s := states[i];
            && (s.target == Directory(current) || IsNew(w, s.target) || s.backup == Directory(current))
            && (s.target == Directory(current) || IsNew(w, s.target) || s.target == Absent)
  {
    Always(w, Directory(current), outcomes, states, i);
  }

  // Returning normally leaves exactly the validated new artifact, and nothing beside it.
  lemma ReturnedNew(w: Setting, current: Content, outcomes: seq<Outcome>, states: seq<State>, i: nat)
    requires Runs(w, current, outcomes, states) && i < |states| && states[i].stage == Returned
    ensures IsNew(w, states[i].target) && states[i].backup == Absent && states[i].staging == Absent
  {
    Always(w, current, outcomes, states, i);
  }

  // Some attempt to restore failed, or some attempt to remove the backup did.
  ghost predicate FailedIn(outcomes: seq<Outcome>, states: seq<State>, stage: Stage, i: nat)
    requires |states| == |outcomes| + 1 && i < |states|
  {
    exists j :: 0 <= j < i && states[j].stage == stage && outcomes[j].Fails?
  }

  ghost predicate Troubled(outcomes: seq<Outcome>, states: seq<State>, i: nat)
    requires |states| == |outcomes| + 1 && i < |states|
  {
    FailedIn(outcomes, states, Restoring, i) || FailedIn(outcomes, states, RemovingBackup, i)
  }

  // How far the run is from having failed in one of those two ways.
  ghost predicate Tracked(w: Setting, current: Content, outcomes: seq<Outcome>, states: seq<State>, i: nat)
    requires |states| == |outcomes| + 1 && i < |states|
  {
    var s := states[i];
    && (s.stage == CleaningStaging(true) || s.stage == Raised ==> (Troubled(outcomes, states, i) <==> s.movedCurrent))
    && (s.stage != CleaningStaging(true) && s.stage != Raised ==> !Troubled(outcomes, states, i))
    && (s.stage == Raised && !s.movedCurrent ==> s.target == current && s.backup == Absent)
    && (s.stage == Raised && s.movedCurrent ==> (s.target == Absent && s.backup == current) || IsNew(w, s.target))
  }

  lemma TroubledNext(outcomes: seq<Outcome>, states: seq<State>, i: nat)
    requires |states| == |outcomes| + 1 && i < |outcomes|
    ensures Troubled(outcomes, states, i + 1) <==>
              Troubled(outcomes, states, i)
              || ((states[i].stage == Restoring || states[i].stage == RemovingBackup) && outcomes[i].Fails?)
  {}

  lemma {:induction false} AlwaysTracked(w: Setting, current: Content, outcomes: seq<Outcome>, states: seq<State>,
                                         i: nat)
    requires Runs(w, current, outcomes, states) && i < |states|
    ensures Tracked(w, current, outcomes, states, i)
    decreases i
  {
    if i == 0 {
    } else {
      AlwaysTracked(w, current, outcomes, states, i - 1);
      Always(w, current, outcomes, states, i - 1);
      assert states[i] == Step(w, states[i - 1], outcomes[i - 1]);
      StepTracks(w, current, outcomes, states, i - 1);
    }
  }

  lemma StepTracks(w: Setting, current: Content, outcomes: seq<Outcome>, states: seq<State>, i: nat)
    requires |states| == |outcomes| + 1 && i < |outcomes| && states[i + 1] == Step(w, states[i], outcomes[i])
    requires Placed(w, current, states[i]) && Tracked(w, current, outcomes, states, i)
    ensures Tracked(w, current, outcomes, states, i + 1)
  {
    TroubledNext(outcomes, states, i);
  }

  // An exception leaves the old artifact exactly as it was, and no backup, unless restoring it or
  // removing the backup failed; then it is the backup, or the new one is in place.
  lemma RaisedOldExactly(w: Setting, current: Files, outcomes: seq<Outcome>, states: seq<State>, i: nat)
    requires Runs(w, Directory(current), outcomes, states) && i < |states| && states[i].stage == Raised
    ensures !Troubled(outcomes, states, i) ==> states[i].target == Directory(current) && states[i].backup == Absent
    ensures Troubled(outcomes, states, i) ==>
              ((states[i].target == Absent && states[i].backup == Directory(current)) || IsNew(w, states[i].target))
    ensures w.written != current ==> (states[i].target == Directory(current) <==> !Troubled(outcomes, states, i))
  {
    Always(w, Directory(current), outcomes, states, i);
    AlwaysTracked(w, Directory(current), outcomes, states, i);
  }

  // ---------- which runs return ----------

  // What may be replaced: nothing, or an artifact that loads.
  predicate Replaceable(w: Setting, current: Content) {
    current == Absent || (current.Directory? && w.loads(current.files))
  }

  // The stages that try something on the file system.
  predicate Tries(s: State) {
    !Finished(s) && s.stage != CheckingPath && (s.stage.CleaningStaging? ==> s.staging != Absent)
  }

  ghost predicate Hindered(outcomes: seq<Outcome>, states: seq<State>, i: nat)
    requires |states| == |outcomes| + 1 && i < |states|
  {
    exists j :: 0 <= j < i && Tries(states[j]) && outcomes[j].Fails?
  }

  lemma HinderedNext(outcomes: seq<Outcome>, states: seq<State>, i: nat)
    requires |states| == |outcomes| + 1 && i < |outcomes|
    ensures Hindered(outcomes, states, i + 1) <==>
              Hindered(outcomes, states, i) || (Tries(states[i]) && outcomes[i].Fails?)
  {}

  predicate IsRaising(s: State) { s.stage == Restoring || s.stage == CleaningStaging(true) || s.stage == Raised }

  // What a stage on the way to returning has found out.
  predicate Cleared(w: Setting, current: Content, s: State) {
    match s.stage
    case CheckingPath => true
    case LoadingCurrent => current.Directory?
    case MakingStaging | Writing | Validating => Replaceable(w, current)
    case _ => Replaceable(w, current) && w.loads(w.written)
  }

  // A run is on its way to raising exactly once something is in its way.
  ghost predicate Judged(w: Setting, current: Content, outcomes: seq<Outcome>, states: seq<State>, i: nat)
    requires |states| == |outcomes| + 1 && i < |states|
  {
    if IsRaising(states[i])
    then Hindered(outcomes, states, i) || !Replaceable(w, current) || !w.loads(w.written)
    else !Hindered(outcomes, states, i) && Cleared(w, current, states[i])
  }

  lemma StepJudged(w: Setting, current: Content, outcomes: seq<Outcome>, states: seq<State>, i: nat)
    requires |states| == |outcomes| + 1 && i < |outcomes| && states[i + 1] == Step(w, states[i], outcomes[i])
    requires Placed(w, current, states[i]) && Judged(w, current, outcomes, states, i)
    ensures Judged(w, current, outcomes, states, i + 1)
  {
    HinderedNext(outcomes, states, i);
  }

  lemma {:induction false} AlwaysJudged(w: Setting, current: Content, outcomes: seq<Outcome>, states: seq<State>,
                                        i: nat)
    requires Runs(w, current, outcomes, states) && i < |states|
    ensures Judged(w, current, outcomes, states, i)
    decreases i
  {
    if i > 0 {
      AlwaysJudged(w, current, outcomes, states, i - 1);
      Always(w, current, outcomes, states, i - 1);
      assert states[i] == Step(w, states[i - 1], outcomes[i - 1]);
      StepJudged(w, current, outcomes, states, i - 1);
    }
  }

  // A run returns exactly if nothing tried fails, what is there may be replaced, and what was written loads.
  lemma ReturnsExactly(w: Setting, current: Content, outcomes: seq<Outcome>, states: seq<State>, i: nat)
    requires Runs(w, current, outcomes, states) && i < |states| && Finished(states[i])
    ensures states[i].stage == Returned <==>
            Replaceable(w, current) && w.loads(w.written) && !Hindered(outcomes, states, i)
  {
    AlwaysJudged(w, current, outcomes, states, i);
  }

  // Every run ends: each step comes closer to returning or raising.
  function Left(s: State): nat {
    match s.stage
    case CheckingPath => 10
    case LoadingCurrent => 9
    case MakingStaging => 8
    case Writing => 7
    case Validating => 6
    case MovingCurrent => 5
    case Promoting => 4
    case Restoring => 3
    case CleaningStaging(_) => 2
    case RemovingBackup => 1
    case _ => 0
  }

  lemma StepsRunOut(w: Setting, s: State, o: Outcome)
    ensures Finished(s) ==> Step(w, s, o) == s
    ensures !Finished(s) ==> Left(Step(w, s, o)) < Left(s)
  {}

  lemma {:induction false} RunEnds(w: Setting, current: Content, outcomes: seq<Outcome>, states: seq<State>, i: nat)
    requires Runs(w, current, outcomes, states) && i < |states|
    ensures i >= 10 ==> Finished(states[i])
    ensures Finished(states[i]) || Left(states[i]) <= 10 - i
    decreases i
  {
    if i == 0 {
    } else {
      RunEnds(w, current, outcomes, states, i - 1);
      assert states[i] == Step(w, states[i - 1], outcomes[i - 1]);
      StepsRunOut(w, states[i - 1], outcomes[i - 1]);
    }
  }
}
