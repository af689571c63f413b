/** Replacing a model directory by a verified new one, when any file operation may fail.

    A script says how each operation of one run ends.  The functions give the directory states that
    the run passes through; the class performs the run step by step. */
module DirectorySwap {

  /** What a directory holds: nothing, some files, or all files of a bundle. */
  datatype Tree = Absent | Partial | Whole(version: nat)

  datatype State = State(destination: Tree, backup: Tree, staging: Tree)

  /** rmtree removes everything, or stops having removed some files or none. */
  datatype Removal = Removed | Stopped(someGone: bool)

  /** How each operation ends.  The rollback takes place when the handler is reached and its rename
      succeeds; an interrupt, which the handler does not catch, is one way for it not to. */
  datatype Script = Script(
    sourceVerified: bool,
    stagingMade: bool,
    copied: bool,
    verified: bool,
    clearBackup: Removal,
    moveOld: bool,
    moveNew: bool,
    dropBackup: Removal,
    rollback: bool,
    clearStaging: Removal)

  /** A run so far: the states passed through, the last of them, whether the old directory has been
      moved away, and whether an exception is on its way to the caller. */
  datatype Run = Run(trace: seq<State>, now: State, movedOld: bool, raised: bool)

  function Do(r: Run, s: State): Run {
    r.(trace := r.trace + [s], now := s)
  }

  function AfterRemoval(t: Tree, r: Removal): Tree {
    match r
    case Removed => Absent
    case Stopped(someGone) => if someGone && t.Whole? then Partial else t
  }

  function Start(s: State): Run {
    Run([s], s, false, false)
  }

  function MakeStaging(r: Run): Run {
    Do(r, r.now.(staging := Partial))
  }

  function CopyFiles(r: Run, version: nat, script: Script): Run {
    if script.copied then Do(r, r.now.(staging := Whole(version))) else r.(raised := true)
  }

  function VerifyStaging(r: Run, script: Script): Run {
    if r.raised || script.verified then r else r.(raised := true)
  }

  function ClearBackup(r: Run, script: Script): Run {
    if r.raised || r.now.backup.Absent? then r
    else Do(r, r.now.(backup := AfterRemoval(r.now.backup, script.clearBackup))).(raised := script.clearBackup.Stopped?)
  }

  /** The backup is gone by now, so the rename has a free target. */
  function MoveOld(r: Run, script: Script): Run {
    if r.raised || r.now.destination.Absent? then r
    else if !script.moveOld then r.(raised := true)
    else Do(r, r.now.(destination := Absent, backup := r.now.destination)).(movedOld := true)
  }

  function MoveNew(r: Run, script: Script): Run {
    if r.raised then r
    else if !script.moveNew then r.(raised := true)
    else Do(r, r.now.(destination := r.now.staging, staging := Absent))
  }

  function DropBackup(r: Run, script: Script): Run {
    if r.raised || !r.movedOld then r
    else Do(r, r.now.(backup := AfterRemoval(r.now.backup, script.dropBackup))).(raised := script.dropBackup.Stopped?)
  }

  /** The except clause: put the old directory back if it was moved and nothing took its place. */
  function RollBack(r: Run, script: Script): Run {
    if r.raised && r.movedOld && r.now.destination.Absent? && !r.now.backup.Absent? && script.rollback then
      Do(r, r.now.(destination := r.now.backup, backup := Absent))
    else r
  }

  /** The finally clause of promote_bundle. */
  function CleanUp(r: Run, script: Script): Run {
    if r.now.staging.Absent? then r
    else Do(r, r.now.(staging := AfterRemoval(r.now.staging, script.clearStaging)))
  }

  /** From a verified staging directory on. */
  function Swap(r: Run, script: Script): Run {
    RollBack(DropBackup(MoveNew(MoveOld(ClearBackup(r, script), script), script), script), script)
  }

  /** Copy into a new staging directory, verify the copy, swap it in and clean up. */
  function PromoteVerified(s: State, version: nat, script: Script): Run {
    CleanUp(Swap(VerifyStaging(CopyFiles(MakeStaging(Start(s)), version, script), script), script), script)
  }

  /** promote_bundle: until the staging directory exists, an exception leaves everything as it was. */
  function Promote(s: State, version: nat, script: Script): Run {
    if script.sourceVerified && script.stagingMade then PromoteVerified(s, version, script)
    else Start(s).(raised := true)
  }

  /** _publish_run: the same swap of a directory that training has already filled. */
  function PublishRun(s: State, version: nat, script: Script): Run {
    Swap(Start(s.(staging := Whole(version))), script)
  }

  // ---------------------------------------------------------------- the program

  class Directories {
    var destination: Tree
    var backup: Tree
    var staging: Tree
    ghost var trace: seq<State>

    constructor (destination: Tree, backup: Tree, staging: Tree)
      ensures Now() == State(destination, backup, staging) && trace == [Now()]
    {
      this.destination, this.backup, this.staging := destination, backup, staging;
      trace := [State(destination, backup, staging)];
    }

    function Now(): State
      reads this
    {
      State(destination, backup, staging)
    }

    /** The swap with its exception handler: raised says that an exception arrives here, or is the
        one that reaches the caller. */
    method SwapIn(script: Script, failed: bool) returns (raised: bool)
      modifies this
      ensures var r := Swap(Run(old(trace), old(Now()), false, failed), script);
              trace == r.trace && Now() == r.now && raised == r.raised
    {
      var movedOld := false;
      raised := failed;
      if !raised && !backup.Absent? {
        backup := AfterRemoval(backup, script.clearBackup);
        trace := trace + [Now()];
        raised := script.clearBackup.Stopped?;
      }
      if !raised && !destination.Absent? {
        if script.moveOld {
          destination, backup := Absent, destination;
          trace := trace + [Now()];
          movedOld := true;
        } else {
          raised := true;
        }
      }
      if !raised {
        if script.moveNew {
          destination, staging := staging, Absent;
          trace := trace + [Now()];
        } else {
          raised := true;
        }
      }
      if !raised && movedOld {
        backup := AfterRemoval(backup, script.dropBackup);
        trace := trace + [Now()];
        raised := script.dropBackup.Stopped?;
      }
      if raised && movedOld && destination.Absent? && !backup.Absent? && script.rollback {
        destination, backup := backup, Absent;
        trace := trace + [Now()];
      }
    }

    method PromoteBundle(version: nat, script: Script) returns (raised: bool)
      requires trace == [Now()]
      modifies this
      ensures var r := Promote(old(Now()), version, script);
              trace == r.trace && Now() == r.now && raised == r.raised
    {
      if !script.sourceVerified || !script.stagingMade {
        return true;
      }
      staging := Partial;
      trace := trace + [Now()];
      raised := !script.copied;
      if !raised {
        staging := Whole(version);
        trace := trace + [Now()];
        raised := !script.verified;
      }
      ghost var prepared := VerifyStaging(CopyFiles(MakeStaging(Start(old(Now()))), version, script), script);
      assert prepared == Run(trace, Now(), false, raised);
      raised := SwapIn(script, raised);
      if !staging.Absent? {
        staging := AfterRemoval(staging, script.clearStaging);
        trace := trace + [Now()];
      }
    }
  }

  // ---------------------------------------------------------------- safety

  /** A complete old or new bundle is in place, or the complete old one is in the backup. */
  predicate Recoverable(s: State, before: nat, after: nat) {
    s.destination == Whole(before) || s.destination == Whole(after) || s.backup == Whole(before)
  }

  ghost predicate AlwaysRecoverable(trace: seq<State>, before: nat, after: nat) {
    forall i :: 0 <= i < |trace| ==> Recoverable(trace[i], before, after)
  }

  /** The one way to lose the destination: the new directory cannot be moved in after the old one
      was moved out, and the rollback does not take place. */
  predicate RollbackLost(s: State, script: Script) {
    && script.sourceVerified && script.stagingMade && script.copied && script.verified
    && (s.backup.Absent? || script.clearBackup.Removed?)
    && script.moveOld && !script.moveNew && !script.rollback
  }

  /** A run that has kept the bundle recoverable and has not touched the destination yet. */
  ghost predicate Ready(r: Run, before: nat, after: nat) {
    && AlwaysRecoverable(r.trace, before, after)
    && r.now.destination == Whole(before)
    && !r.movedOld
    && (!r.raised ==> r.now.staging == Whole(after))
  }

  lemma SwapIsSafe(r: Run, script: Script, before: nat, after: nat)
    requires Ready(r, before, after)
    ensures var end := Swap(r, script);
            && AlwaysRecoverable(end.trace, before, after)
            && (!end.raised ==> end.now == State(Whole(after), Absent, Absent))
            && ((end.now.destination == Whole(before) || end.now.destination == Whole(after)) <==>
                !(&& !r.raised && (r.now.backup.Absent? || script.clearBackup.Removed?)
                  && script.moveOld && !script.moveNew && !script.rollback))
  {
  }

  /** Main theorem: however the operations of a promotion end, a destination that was complete at the
      start stays recoverable at every point; it ends complete, old or new, unless the new directory
      could not be moved in and the rollback did not take place either; and a promotion that reports success
      has installed the new bundle and left nothing else behind. */
  lemma PromotionIsSafe(s: State, version: nat, script: Script)
    requires s.destination.Whole?
    ensures var r := Promote(s, version, script);
            && AlwaysRecoverable(r.trace, s.destination.version, version)
            && ((r.now.destination == s.destination || r.now.destination == Whole(version))
                <==> !RollbackLost(s, script))
            && (!r.raised ==> r.now == State(Whole(version), Absent, Absent))
  {
    var prepared := VerifyStaging(CopyFiles(MakeStaging(Start(s)), version, script), script);
    SwapIsSafe(prepared, script, s.destination.version, version);
  }

  /** The staging directory holds a verified copy and the way to the backup is free. */
  predicate ReachesSwap(s: State, script: Script) {
    && script.sourceVerified && script.stagingMade && script.copied && script.verified
    && (s.backup.Absent? || script.clearBackup.Removed?)
  }

  /** A promotion reports success exactly when every operation that it needs succeeds: with no old
      directory there is nothing to move out and no backup to drop. */
  lemma PromotionSucceedsIff(s: State, version: nat, script: Script)
    ensures !Promote(s, version, script).raised <==>
            && ReachesSwap(s, script) && script.moveNew
            && (s.destination.Absent? || (script.moveOld && script.dropBackup.Removed?))
  {
  }

  /** How a promotion ends that moved the old directory out: rolled back without a trace, or complete
      with what is left of the backup; and the staging directory is gone if it could be removed. */
  lemma PromotionEnds(s: State, version: nat, script: Script)
    requires s.destination.Whole?
    ensures var r := Promote(s, version, script);
            && (ReachesSwap(s, script) && script.moveOld && !script.moveNew && script.rollback ==>
                  r.raised && r.now.destination == s.destination && r.now.backup.Absent?)
            && (ReachesSwap(s, script) && script.moveOld && script.moveNew && script.dropBackup == Stopped(true) ==>
                  r.raised && r.now.destination == Whole(version) && r.now.backup == Partial)
            && (ReachesSwap(s, script) && script.moveOld && script.moveNew && script.dropBackup == Stopped(false) ==>
                  r.raised && r.now.destination == Whole(version) && r.now.backup == s.destination)
            && (script.sourceVerified && script.stagingMade && script.clearStaging.Removed? ==> r.now.staging.Absent?)
  {
  }

  /** The steps that a published run has behind it. */
  function AfterTraining(script: Script): Script {
    script.(sourceVerified := true, stagingMade := true, copied := true, verified := true)
  }

  /** The training variant gives the same guarantee. */
  lemma PublishingIsSafe(s: State, version: nat, script: Script)
    requires s.destination.Whole?
    ensures var r := PublishRun(s, version, script);
            && AlwaysRecoverable(r.trace, s.destination.version, version)
            && ((r.now.destination == s.destination || r.now.destination == Whole(version))
                <==> !RollbackLost(s, AfterTraining(script)))
            && (!r.raised ==> r.now == State(Whole(version), Absent, Absent))
  {
    SwapIsSafe(Start(s.(staging := Whole(version))), script, s.destination.version, version);
  }

  predicate HasBundle(s: State) {
    s.destination.Whole? || s.backup.Whole?
  }

  ghost predicate AlwaysHasBundle(trace: seq<State>) {
    forall i :: 0 <= i < |trace| ==> HasBundle(trace[i])
  }

  /** Everything succeeds except moving the new directory in. */
  const MOVE_IN_FAILS := Script(true, true, true, true, Removed, true, false, Removed, true, Removed)

  /** Exactly when a promotion keeps a complete bundle in place or in the backup at every point, for
      every way its operations may end: when the destination is complete at the start.  A destination
      lost by an earlier crash is the failing case: its backup is deleted before the swap. */
  lemma DestinationMustBeCompleteIff(s: State, version: nat)
    ensures (forall script :: AlwaysHasBundle(Promote(s, version, script).trace)) <==> s.destination.Whole?
  {
    if s.destination.Whole? {
      forall script
        ensures AlwaysHasBundle(Promote(s, version, script).trace)
      {
        PromotionIsSafe(s, version, script);
      }
    } else {
      PromotionAfterLoss(s, version);
    }
  }

  lemma PromotionAfterLoss(s: State, version: nat)
    requires !s.destination.Whole?
    ensures !AlwaysHasBundle(Promote(s, version, MOVE_IN_FAILS).trace)
  {
    var trace := Promote(s, version, MOVE_IN_FAILS).trace;
    if s.backup.Whole? {
      assert trace[3] == State(s.destination, Absent, Whole(version));
    } else {
      assert trace[0] == s;
    }
  }

  /** The training variant has the same condition. */
  lemma PublishingMustStartCompleteIff(s: State, version: nat)
    ensures (forall script :: AlwaysHasBundle(PublishRun(s, version, script).trace)) <==> s.destination.Whole?
  {
    if s.destination.Whole? {
      forall script
        ensures AlwaysHasBundle(PublishRun(s, version, script).trace)
      {
        PublishingIsSafe(s, version, script);
      }
    } else {
      PublishingAfterLoss(s, version);
    }
  }

  lemma PublishingAfterLoss(s: State, version: nat)
    requires !s.destination.Whole?
    ensures !AlwaysHasBundle(PublishRun(s, version, MOVE_IN_FAILS).trace)
  {
    var trace := PublishRun(s, version, MOVE_IN_FAILS).trace;
    assert trace[0] == s.(staging := Whole(version));
    if s.backup.Whole? {
      assert trace[1] == State(s.destination, Absent, Whole(version));
    }
  }

  /** The lost state is real: a promotion that starts complete passes through it, so a crash there and
      a second promotion can leave no complete bundle in place or in the backup. */
  lemma CrashThenPromotionCanLoseBundle(s: State, version: nat) returns (crash: nat)
    requires s.destination.Whole?
    ensures var trace := Promote(s, version, MOVE_IN_FAILS).trace;
            && crash < |trace|
            && trace[crash].destination.Absent? && trace[crash].backup == s.destination
            && !AlwaysHasBundle(Promote(trace[crash], version, MOVE_IN_FAILS).trace)
  {
    var trace := Promote(s, version, MOVE_IN_FAILS).trace;
    crash := if s.backup.Absent? then 3 else 4;
    assert trace[crash] == State(Absent, s.destination, Whole(version));
    PromotionAfterLoss(trace[crash], version);
  }
}
