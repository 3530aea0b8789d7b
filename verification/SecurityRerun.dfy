/**
 Running the migration again: what earlier runs, stopped anywhere, leave a section as, when a
 later run completes, and that it then ends where one undisturbed run would have.
 */
module SecurityRerun {
  import opened Wrappers
  import opened SecurityConfig
  import opened SecurityMigration

  // ---------- How far a section has come ----------

  datatype Stage = Untouched | Extended | Complete

  /** The section holds what it held at first, that with the additions, or that with the updates as well. */
  predicate At(stage: Stage, section: string, os: Section, target: Section, variant: Variant, now: Section) {
    match stage
    case Untouched => now == target
    case Extended => now == target + Additions(section, os, target)
    case Complete => Updatable(section, os, target, variant) && now == Finished(section, os, target, variant)
  }

  /** The stage of a section, as its content shows it. */
  function StageOf(section: string, os: Section, target: Section, variant: Variant, now: Section): Stage {
    if Updatable(section, os, target, variant) && now == Finished(section, os, target, variant) then Complete
    else if now == target + Additions(section, os, target) then Extended
    else Untouched
  }

  /**
   What makes the next run stop at an entry, in terms of the first source and target: an
   entry of the target that cannot be updated, an entry added empty or without searchable
   users, or a mapping into which an update wrote users that cannot be searched.
   */
  predicate Blocks(stage: Stage, section: string, os: Section, target: Section, variant: Variant, name: string) {
    && !Protected(section, os, target, name)
    && if name in target then
         if stage == Complete then section == "rolesmapping" && WritesBadUsers(os[name], target[name])
         else UpdateFails(section, os[name], target[name], variant)
       else
         && stage != Untouched
         && (Filtered(os[name]) == map[] || (section == "rolesmapping" && !SearchableUsers(os[name])))
  }

  /** What a finished section holds under an unprotected name. */
  function FinalEntry(section: string, os: Section, target: Section, variant: Variant, name: string): Entry
    requires name in os
  {
    if name !in target then Filtered(os[name])
    else
      match Decision(section, os, target, variant, name)
      case Ok(decision) => Outcome(target[name], decision)
      case Err(_) => target[name]
  }

  lemma FinishedHolds(section: string, os: Section, target: Section, variant: Variant, name: string)
    requires Updatable(section, os, target, variant)
    ensures var after := Finished(section, os, target, variant);
            if Protected(section, os, target, name) then SameEntry(after, target, name)
            else name in after && after[name] == FinalEntry(section, os, target, variant, name)
  {
    var after := Finished(section, os, target, variant);
    if Protected(section, os, target, name) {
      FinishedKeeps(section, os, target, variant, after, name);
    } else if name in target {
      FinishedUpdates(section, os, target, variant, after, name);
    } else {
      FinishedAdds(section, os, target, variant, after, name);
    }
  }

  lemma ExtendedHolds(section: string, os: Section, target: Section, name: string)
    ensures var after := target + Additions(section, os, target);
            if Protected(section, os, target, name) || name in target then SameEntry(after, target, name)
            else name in after && after[name] == Filtered(os[name])
  {
    PlanCoversUnprotected(section, os, target);
  }

  /** Under every name, a later run protects the same, fails exactly where blocked, and aims at the same value. */
  lemma {:induction false} EntryResumed(
      stage: Stage, section: string, os: Section, target: Section, variant: Variant, now: Section, name: string)
    requires At(stage, section, os, target, variant, now)
    ensures Protected(section, os, now, name) <==> Protected(section, os, target, name)
    ensures Protected(section, os, target, name) ==> SameEntry(now, target, name)
    ensures !Protected(section, os, target, name) ==>
              && (name in now <==> name in target || stage != Untouched)
              && (name in now ==>
                    (Decision(section, os, now, variant, name).Err? <==>
                      Blocks(stage, section, os, target, variant, name)))
              && (name in now && Decision(section, os, now, variant, name).Ok? ==>
                    FinalEntry(section, os, now, variant, name) == FinalEntry(section, os, target, variant, name))
              && (stage == Complete ==> now[name] == FinalEntry(section, os, target, variant, name))
  {
    match stage {
      case Untouched =>
      case Extended => ExtendedHolds(section, os, target, name);
      case Complete => FinishedHolds(section, os, target, variant, name);
    }
    if !Protected(section, os, target, name) {
      if name !in target {
        UpdateAfterAdd(section, os[name], variant);
      } else if stage == Complete {
        FinishedUpdates(section, os, target, variant, now, name);
        UpdateLeavesUnflagged(section, os[name], target[name], variant);
        UpdateAgain(section, os[name], target[name], variant);
      } else {
        UpdateFailsIff(section, os[name], target[name], variant);
      }
    }
  }

  /** The updater raises nothing in a later run exactly when no entry blocks it. */
  lemma {:induction false} ResumeUpdatableIff(
      stage: Stage, section: string, os: Section, target: Section, variant: Variant, now: Section)
    requires At(stage, section, os, target, variant, now)
    ensures Updatable(section, os, now, variant) <==> forall name :: !Blocks(stage, section, os, target, variant, name)
  {
    PlanCoversUnprotected(section, os, now);
    forall name
      ensures Blocks(stage, section, os, target, variant, name) <==>
                && name in SimpleActions(section, os, now).update && name in DecisionsOf(section, os, now, variant)
                && DecisionsOf(section, os, now, variant)[name].Err?
    {
      EntryResumed(stage, section, os, target, variant, now, name);
    }
  }

  /** What can be updated later could have been updated at first. */
  lemma {:induction false} ResumableWasUpdatable(
      stage: Stage, section: string, os: Section, target: Section, variant: Variant, now: Section)
    requires At(stage, section, os, target, variant, now) && Updatable(section, os, now, variant)
    ensures Updatable(section, os, target, variant)
  {
    if stage != Complete {
      ResumeUpdatableIff(stage, section, os, target, variant, now);
      ResumeUpdatableIff(Untouched, section, os, target, variant, target);
      assert forall name | Blocks(Untouched, section, os, target, variant, name) ::
          Blocks(stage, section, os, target, variant, name);
    }
  }

  lemma SameEntries(a: Section, b: Section)
    requires forall name :: SameEntry(a, b, name)
    ensures a == b
  {
    forall name
      ensures (name in a <==> name in b) && (name in a ==> a[name] == b[name])
    {
      assert SameEntry(a, b, name);
    }
  }

  /** A section that a later run finishes ends as one run would have left it. */
  lemma {:induction false} ResumeFinishes(
      stage: Stage, section: string, os: Section, target: Section, variant: Variant, now: Section)
    requires At(stage, section, os, target, variant, now) && Updatable(section, os, now, variant)
    ensures Updatable(section, os, target, variant)
    ensures Finished(section, os, now, variant) == Finished(section, os, target, variant)
  {
    ResumableWasUpdatable(stage, section, os, target, variant, now);
    forall name
      ensures SameEntry(Finished(section, os, now, variant), Finished(section, os, target, variant), name)
    {
      ResumeUpdatableIff(stage, section, os, target, variant, now);
      EntryResumed(stage, section, os, target, variant, now, name);
      FinishedHolds(section, os, now, variant, name);
      FinishedHolds(section, os, target, variant, name);
    }
    SameEntries(Finished(section, os, now, variant), Finished(section, os, target, variant));
  }

  /** Once the additions are in, there is nothing left to add. */
  lemma {:induction false} NothingToAddAgain(
      stage: Stage, section: string, os: Section, target: Section, variant: Variant, now: Section)
    requires At(stage, section, os, target, variant, now) && stage != Untouched
    ensures now + Additions(section, os, now) == now
  {
    PlanCoversUnprotected(section, os, now);
    forall name
      ensures name !in SimpleActions(section, os, now).add
    {
      EntryResumed(stage, section, os, target, variant, now, name);
    }
  }

  ghost predicate Reached(section: string, os: Section, target: Section, variant: Variant, now: Section) {
    exists stage :: At(stage, section, os, target, variant, now)
  }

  /**
   However a further run leaves the section, it is at some stage: at the last if it finished,
   and never moved from there.
   */
  lemma {:induction false} SectionResumed(
      stage: Stage, section: string, os: Section, target: Section, variant: Variant, now: Section, replies: seq<Reply>)
    requires At(stage, section, os, target, variant, now)
    ensures var p := MigrateSection(section, os, now, variant, replies);
            && Reached(section, os, target, variant, p.entries)
            && (p.ok ==> At(Complete, section, os, target, variant, p.entries))
            && (stage == Complete ==> p.entries == now)
  {
    SectionEnds(section, os, now, variant, replies);
    if stage != Untouched {
      NothingToAddAgain(stage, section, os, target, variant, now);
    }
    if Updatable(section, os, now, variant) {
      ResumeFinishes(stage, section, os, target, variant, now);
      assert At(Complete, section, os, target, variant, Finished(section, os, now, variant));
    }
    assert At(Extended, section, os, target, variant, target + Additions(section, os, target));
  }

  lemma {:induction false} FinishedSectionAgain(
      section: string, os: Section, target: Section, variant: Variant, replies: seq<Reply>, again: seq<Reply>)
    requires MigrateSection(section, os, target, variant, replies).ok
    ensures var after := MigrateSection(section, os, target, variant, replies).entries;
            MigrateSection(section, os, after, variant, again).entries == after
  {
    SectionEnds(section, os, target, variant, replies);
    SectionResumed(Complete, section, os, target, variant,
                   MigrateSection(section, os, target, variant, replies).entries, again);
  }

  predicate AllAccepted(replies: seq<Reply>) {
    forall i :: 0 <= i < |replies| ==> replies[i] == Accepted
  }

  lemma AcceptedSendOk(entries: Section, change: Section, replies: seq<Reply>)
    requires AllAccepted(replies)
    ensures Send(entries, change, replies).ok && AllAccepted(Send(entries, change, replies).replies)
  {
  }

  /** When the target accepts every patch, only an exception of the updater stops a section. */
  lemma {:induction false} AcceptedSectionOk(
      section: string, os: Section, target: Section, variant: Variant, replies: seq<Reply>)
    requires AllAccepted(replies)
    ensures MigrateSection(section, os, target, variant, replies).ok <==> Updatable(section, os, target, variant)
    ensures AllAccepted(MigrateSection(section, os, target, variant, replies).replies)
  {
    var additions := Additions(section, os, target);
    AcceptedSendOk(target, additions, replies);
    if Updatable(section, os, target, variant) {
      var added := Send(target, additions, replies);
      AcceptedSendOk(added.entries, Updates(section, os, target, variant), added.replies);
    }
  }

  /** At every stage, migrating a section again goes through exactly when no entry blocks it. */
  lemma {:induction false} SectionAgainIff(
      stage: Stage, section: string, os: Section, target: Section, variant: Variant, now: Section, again: seq<Reply>)
    requires At(stage, section, os, target, variant, now) && AllAccepted(again)
    ensures MigrateSection(section, os, now, variant, again).ok <==>
              forall name :: !Blocks(stage, section, os, target, variant, name)
  {
    AcceptedSectionOk(section, os, now, variant, again);
    ResumeUpdatableIff(stage, section, os, target, variant, now);
  }

  // ---------- When a run completes ----------

  lemma {:induction false} AcceptedRunCompletes(
      sections: seq<string>, source: Config, target: Config, variant: Variant, replies: seq<Reply>)
    requires Distinct(sections) && AllAccepted(replies)
    requires forall section :: section in sections ==>
               Updatable(section, SectionOf(source, section), SectionOf(target, section), variant)
    ensures Migrate(sections, source, target, variant, replies).completed
  {
    if sections != [] {
      var first := sections[0];
      var p := MigrateSection(first, SectionOf(source, first), SectionOf(target, first), variant, replies);
      assert first in sections;
      AcceptedSectionOk(first, SectionOf(source, first), SectionOf(target, first), variant, replies);
      AcceptedRunCompletes(sections[1..], source, target[first := p.entries], variant, p.replies);
    }
  }

  /** What a completed run has done to one of its sections. */
  lemma {:induction false} CompletedHasFinished(
      source: Config, target: Config, variant: Variant, replies: seq<Reply>, section: string)
    requires MigrateAll(source, target, variant, replies).completed && section in SECURITY_CONFIG_SECTIONS
    ensures At(Complete, section, SectionOf(source, section), SectionOf(target, section), variant,
               SectionOf(MigrateAll(source, target, variant, replies).target, section))
  {
    CompletedIffSectionsFinished(source, target, variant, replies);
    FinishedIsComplete(source, target, variant, replies, section);
  }

  lemma FinishedIsComplete(source: Config, target: Config, variant: Variant, replies: seq<Reply>, section: string)
    requires section in FinishedSections(source, target, variant, replies)
    ensures At(Complete, section, SectionOf(source, section), SectionOf(target, section), variant,
               SectionOf(MigrateAll(source, target, variant, replies).target, section))
  {
    var os, before := SectionOf(source, section), SectionOf(target, section);
    var after := SectionOf(MigrateAll(source, target, variant, replies).target, section);
    FinishedSectionRan(source, target, variant, replies, section);
    var r :| RanWith(section, os, before, variant, after, true, r);
    SectionEnds(section, os, before, variant, r);
  }

  ghost predicate AllUpdatable(source: Config, target: Config, variant: Variant) {
    forall section :: section in SECURITY_CONFIG_SECTIONS ==>
      Updatable(section, SectionOf(source, section), SectionOf(target, section), variant)
  }

  /** A run completes only if the updater raises nothing, and then does unless the target refuses a patch. */
  lemma {:induction false} CompletesIff(source: Config, target: Config, variant: Variant, replies: seq<Reply>)
    ensures MigrateAll(source, target, variant, replies).completed ==> AllUpdatable(source, target, variant)
    ensures AllAccepted(replies) ==>
              (MigrateAll(source, target, variant, replies).completed <==> AllUpdatable(source, target, variant))
  {
    if MigrateAll(source, target, variant, replies).completed {
      forall section | section in SECURITY_CONFIG_SECTIONS
        ensures Updatable(section, SectionOf(source, section), SectionOf(target, section), variant)
      {
        CompletedHasFinished(source, target, variant, replies, section);
      }
    }
    if AllAccepted(replies) && AllUpdatable(source, target, variant) {
      SectionsAreDistinct();
      AcceptedRunCompletes(SECURITY_CONFIG_SECTIONS, source, target, variant, replies);
    }
  }

  /** The entry is on both sides, may be migrated, and cannot be updated. */
  predicate CannotUpdate(section: string, os: Section, target: Section, variant: Variant, name: string) {
    !Protected(section, os, target, name) && name in target && UpdateFails(section, os[name], target[name], variant)
  }

  /**
   A first run whose patches are accepted completes exactly when every unprotected entry
   present on both sides can be updated: it is not empty in the target, and the users of a
   role mapping can be searched and the manager kept.
   */
  lemma {:induction false} FirstRunCompletesIff(
      source: Config, target: Config, variant: Variant, replies: seq<Reply>)
    requires AllAccepted(replies)
    ensures MigrateAll(source, target, variant, replies).completed <==>
              forall section, name :: section in SECURITY_CONFIG_SECTIONS ==>
                !CannotUpdate(section, SectionOf(source, section), SectionOf(target, section), variant, name)
  {
    CompletesIff(source, target, variant, replies);
    forall section
      ensures Updatable(section, SectionOf(source, section), SectionOf(target, section), variant) <==>
                forall name ::
                  !CannotUpdate(section, SectionOf(source, section), SectionOf(target, section), variant, name)
    {
      UpdatableIff(section, SectionOf(source, section), SectionOf(target, section), variant);
    }
  }

  lemma {:induction false} UpdatableIff(section: string, os: Section, target: Section, variant: Variant)
    ensures Updatable(section, os, target, variant) <==>
              forall name :: !CannotUpdate(section, os, target, variant, name)
  {
    ResumeUpdatableIff(Untouched, section, os, target, variant, target);
    assert forall name ::
        Blocks(Untouched, section, os, target, variant, name) <==> CannotUpdate(section, os, target, variant, name);
  }

  // ---------- Runs after runs ----------

  /** The target after any number of runs, each with replies of its own. */
  function AfterRuns(source: Config, target: Config, variant: Variant, attempts: seq<seq<Reply>>): Config {
    if attempts == [] then target
    else
      var n := |attempts| - 1;
      MigrateAll(source, AfterRuns(source, target, variant, attempts[..n]), variant, attempts[n]).target
  }

  /** After any runs every section is at one of the three stages. */
  lemma {:induction false} RunsReachStages(
      source: Config, target: Config, variant: Variant, attempts: seq<seq<Reply>>, section: string)
    ensures Reached(section, SectionOf(source, section), SectionOf(target, section), variant,
                    SectionOf(AfterRuns(source, target, variant, attempts), section))
  {
    var os, before := SectionOf(source, section), SectionOf(target, section);
    if attempts == [] {
      assert At(Untouched, section, os, before, variant, before);
    } else {
      var n := |attempts| - 1;
      RunsReachStages(source, target, variant, attempts[..n], section);
      RunReachesStage(source, target, variant, AfterRuns(source, target, variant, attempts[..n]), attempts[n], section);
    }
  }

  lemma {:induction false} RunReachesStage(
      source: Config, target: Config, variant: Variant, now: Config, replies: seq<Reply>, section: string)
    requires Reached(section, SectionOf(source, section), SectionOf(target, section), variant, SectionOf(now, section))
    ensures Reached(section, SectionOf(source, section), SectionOf(target, section), variant,
                    SectionOf(MigrateAll(source, now, variant, replies).target, section))
  {
    var os, before := SectionOf(source, section), SectionOf(target, section);
    var last := SectionOf(MigrateAll(source, now, variant, replies).target, section);
    SectionsAreDistinct();
    RunOnSection(SECURITY_CONFIG_SECTIONS, source, now, variant, replies, section);
    if last != SectionOf(now, section) {
      var stage :| At(stage, section, os, before, variant, SectionOf(now, section));
      var done :| Ran(section, os, SectionOf(now, section), variant, last, done);
      var r :| RanWith(section, os, SectionOf(now, section), variant, last, done, r);
      SectionResumed(stage, section, os, before, variant, SectionOf(now, section), r);
    }
  }

  /**
   Running the migration again leaves every section that the first run finished as it is,
   whatever the second run meets and wherever it stops.
   */
  lemma {:induction false} RerunChangesNothing(
      source: Config, target: Config, variant: Variant, replies: seq<Reply>, again: seq<Reply>, section: string)
    requires section in SECURITY_CONFIG_SECTIONS ==> section in FinishedSections(source, target, variant, replies)
    ensures var after := MigrateAll(source, target, variant, replies).target;
            SectionOf(MigrateAll(source, after, variant, again).target, section) == SectionOf(after, section)
  {
    var after := MigrateAll(source, target, variant, replies).target;
    if section in SECURITY_CONFIG_SECTIONS {
      var os, before := SectionOf(source, section), SectionOf(target, section);
      var last := SectionOf(MigrateAll(source, after, variant, again).target, section);
      SectionsAreDistinct();
      FinishedIsComplete(source, target, variant, replies, section);
      RunOnSection(SECURITY_CONFIG_SECTIONS, source, after, variant, again, section);
      if last != SectionOf(after, section) {
        var done :| Ran(section, os, SectionOf(after, section), variant, last, done);
        var r :| RanWith(section, os, SectionOf(after, section), variant, last, done, r);
        SectionResumed(Complete, section, os, before, variant, SectionOf(after, section), r);
      }
    } else {
      OthersUntouched(SECURITY_CONFIG_SECTIONS, source, after, variant, again, section);
    }
  }

  /**
   Whatever happened in any number of earlier runs, if a run completes then one undisturbed run
   on the first target completes as well, and both leave every section the same.
   */
  lemma {:induction false} ResumeEqualsOneRun(
      source: Config, target: Config, variant: Variant, attempts: seq<seq<Reply>>, again: seq<Reply>,
      undisturbed: seq<Reply>, section: string)
    requires MigrateAll(source, AfterRuns(source, target, variant, attempts), variant, again).completed
    requires AllAccepted(undisturbed)
    ensures MigrateAll(source, target, variant, undisturbed).completed
    ensures var last := MigrateAll(source, AfterRuns(source, target, variant, attempts), variant, again).target;
            SectionOf(last, section) == SectionOf(MigrateAll(source, target, variant, undisturbed).target, section)
  {
    var now := AfterRuns(source, target, variant, attempts);
    var last := MigrateAll(source, now, variant, again).target;
    forall s | s in SECURITY_CONFIG_SECTIONS
      ensures At(Complete, s, SectionOf(source, s), SectionOf(target, s), variant, SectionOf(last, s))
    {
      ResumeCompletes(source, target, variant, attempts, again, s);
    }
    CompletesIff(source, target, variant, undisturbed);
    if section in SECURITY_CONFIG_SECTIONS {
      CompletedHasFinished(source, target, variant, undisturbed, section);
    } else {
      RunsLeaveOthers(source, target, variant, attempts, section);
      OthersUntouched(SECURITY_CONFIG_SECTIONS, source, now, variant, again, section);
      OthersUntouched(SECURITY_CONFIG_SECTIONS, source, target, variant, undisturbed, section);
    }
  }

  lemma {:induction false} ResumeCompletes(
      source: Config, target: Config, variant: Variant, attempts: seq<seq<Reply>>, again: seq<Reply>, section: string)
    requires MigrateAll(source, AfterRuns(source, target, variant, attempts), variant, again).completed
    requires section in SECURITY_CONFIG_SECTIONS
    ensures var last := MigrateAll(source, AfterRuns(source, target, variant, attempts), variant, again).target;
            At(Complete, section, SectionOf(source, section), SectionOf(target, section), variant,
               SectionOf(last, section))
  {
    var os, before := SectionOf(source, section), SectionOf(target, section);
    var now := AfterRuns(source, target, variant, attempts);
    RunsReachStages(source, target, variant, attempts, section);
    CompletedHasFinished(source, now, variant, again, section);
    var stage :| At(stage, section, os, before, variant, SectionOf(now, section));
    ResumeFinishes(stage, section, os, before, variant, SectionOf(now, section));
  }

  lemma {:induction false} RunsLeaveOthers(
      source: Config, target: Config, variant: Variant, attempts: seq<seq<Reply>>, section: string)
    requires section !in SECURITY_CONFIG_SECTIONS
    ensures SectionOf(AfterRuns(source, target, variant, attempts), section) == SectionOf(target, section)
  {
    if attempts != [] {
      var n := |attempts| - 1;
      RunsLeaveOthers(source, target, variant, attempts[..n], section);
      OthersUntouched(SECURITY_CONFIG_SECTIONS, source, AfterRuns(source, target, variant, attempts[..n]), variant,
                      attempts[n], section);
    }
  }

  /** Where an undisturbed run would stop, no number of runs ever completes. */
  lemma {:induction false} BlockedForever(
      source: Config, target: Config, variant: Variant, attempts: seq<seq<Reply>>, again: seq<Reply>)
    requires !MigrateAll(source, target, variant, []).completed
    ensures !MigrateAll(source, AfterRuns(source, target, variant, attempts), variant, again).completed
  {
    if MigrateAll(source, AfterRuns(source, target, variant, attempts), variant, again).completed {
      ResumeEqualsOneRun(source, target, variant, attempts, again, [], "roles");
    }
  }

  ghost predicate NothingBlocks(source: Config, target: Config, variant: Variant, now: Config) {
    forall section, name :: section in SECURITY_CONFIG_SECTIONS ==>
      var os, before := SectionOf(source, section), SectionOf(target, section);
      !Blocks(StageOf(section, os, before, variant, SectionOf(now, section)), section, os, before, variant, name)
  }

  /**
   After any number of runs, stopped anywhere, the next one completes only if no entry blocks
   it at the stage its section has reached, and then does unless the target refuses a patch.
   */
  lemma {:induction false} ResumeCompletesIff(
      source: Config, target: Config, variant: Variant, attempts: seq<seq<Reply>>, again: seq<Reply>)
    ensures var now := AfterRuns(source, target, variant, attempts);
            var next := MigrateAll(source, now, variant, again);
            && (next.completed ==> NothingBlocks(source, target, variant, now))
            && (AllAccepted(again) ==> (next.completed <==> NothingBlocks(source, target, variant, now)))
  {
    var now := AfterRuns(source, target, variant, attempts);
    CompletesIff(source, now, variant, again);
    forall section
      ensures var os, before := SectionOf(source, section), SectionOf(target, section);
              var stage := StageOf(section, os, before, variant, SectionOf(now, section));
              Updatable(section, os, SectionOf(now, section), variant) <==>
                forall name :: !Blocks(stage, section, os, before, variant, name)
    {
      var os, before := SectionOf(source, section), SectionOf(target, section);
      RunsReachStages(source, target, variant, attempts, section);
      ResumeUpdatableIff(StageOf(section, os, before, variant, SectionOf(now, section)), section, os, before, variant,
                         SectionOf(now, section));
    }
  }

  /** In particular, what a completed run can leave in the way of the next is an entry it added or updated. */
  lemma {:induction false} RerunCompletesIff(
      source: Config, target: Config, variant: Variant, replies: seq<Reply>, again: seq<Reply>)
    requires MigrateAll(source, target, variant, replies).completed
    ensures var second := MigrateAll(source, MigrateAll(source, target, variant, replies).target, variant, again);
            && (second.completed ==> NothingBlocksRerun(source, target, variant))
            && (AllAccepted(again) ==> (second.completed <==> NothingBlocksRerun(source, target, variant)))
  {
    var after := MigrateAll(source, target, variant, replies).target;
    assert AfterRuns(source, target, variant, [replies]) == after by {
      assert [replies][..0] == [];
    }
    ResumeCompletesIff(source, target, variant, [replies], again);
    forall section | section in SECURITY_CONFIG_SECTIONS
      ensures StageOf(section, SectionOf(source, section), SectionOf(target, section), variant,
                      SectionOf(after, section)) == Complete
    {
      CompletedHasFinished(source, target, variant, replies, section);
    }
  }

  ghost predicate NothingBlocksRerun(source: Config, target: Config, variant: Variant) {
    forall section, name :: section in SECURITY_CONFIG_SECTIONS ==>
      !Blocks(Complete, section, SectionOf(source, section), SectionOf(target, section), variant, name)
  }

  // ---------- Inputs for which the next run stops ----------

  lemma {:induction false} RerunFails(os: Entry, mappings: Section, variant: Variant)
    requires Updatable("rolesmapping", map["analysts" := os], mappings, variant)
    requires Blocks(Complete, "rolesmapping", map["analysts" := os], mappings, variant, "analysts")
    ensures var source, target := map["rolesmapping" := map["analysts" := os]], map["rolesmapping" := mappings];
            var first := MigrateAll(source, target, variant, []);
            first.completed && !MigrateAll(source, first.target, variant, []).completed
  {
    var source: Config, target: Config := map["rolesmapping" := map["analysts" := os]], map["rolesmapping" := mappings];
    SectionsAreDistinct();
    AcceptedRunCompletes(SECURITY_CONFIG_SECTIONS, source, target, variant, []);
    assert Blocks(Complete, "rolesmapping", SectionOf(source, "rolesmapping"), SectionOf(target, "rolesmapping"),
                  variant, "analysts");
    assert "rolesmapping" == SECURITY_CONFIG_SECTIONS[1];
    RerunCompletesIff(source, target, variant, [], []);
  }

  /** A mapping without users is added once, and then stops the migration. */
  lemma RerunFailsAfterAdd(variant: Variant)
    ensures var source := map["rolesmapping" := map["analysts" := map["and_backend_roles" := JList([])]]];
            var first := MigrateAll(source, map["rolesmapping" := map[]], variant, []);
            first.completed && !MigrateAll(source, first.target, variant, []).completed
  {
    RerunFails(map["and_backend_roles" := JList([])], map[], variant);
  }

  /** A mapping whose users are null is updated once, and then stops the migration. */
  lemma RerunFailsAfterUpdate(variant: Variant)
    ensures var source := map["rolesmapping" := map["analysts" := map["users" := JNull]]];
            var target := map["rolesmapping" := map["analysts" := map["users" := JList([JString("ann")])]]];
            var first := MigrateAll(source, target, variant, []);
            first.completed && !MigrateAll(source, first.target, variant, []).completed
  {
    var os, aiven := map["users" := JNull], map["users" := JList([JString("ann")])];
    NullUsersBlock(os, aiven, variant);
    RerunFails(os, map["analysts" := aiven], variant);
  }

  lemma NullUsersBlock(os: Entry, aiven: Entry, variant: Variant)
    requires os == map["users" := JNull] && aiven == map["users" := JList([JString("ann")])]
    ensures Updatable("rolesmapping", map["analysts" := os], map["analysts" := aiven], variant)
    ensures Blocks(Complete, "rolesmapping", map["analysts" := os], map["analysts" := aiven], variant, "analysts")
  {
    assert Filtered(os) == os && Filtered(aiven) == aiven;
    assert "users" in os.Keys + aiven.Keys && Truthy(Get(aiven, "users"));
    assert WritesBadUsers(os, aiven);
  }

  lemma EmptySectionPasses(section: string, target: Section, variant: Variant, replies: seq<Reply>)
    ensures MigrateSection(section, map[], target, variant, replies) == Progress(target, true, replies)
  {
    PlanCoversUnprotected(section, map[], target);
    assert Additions(section, map[], target) == map[];
    assert Updatable(section, map[], target, variant);
    assert Updates(section, map[], target, variant) == map[];
  }

  lemma {:induction false} AddsName(section: string, os: Section, target: Section, name: string)
    requires !Protected(section, os, target, name) && name !in target
    ensures name in Additions(section, os, target)
  {
    PlanCoversUnprotected(section, os, target);
  }

  lemma {:induction false} UpdatesName(section: string, os: Section, target: Section, variant: Variant, name: string)
    requires Updatable(section, os, target, variant) && !Protected(section, os, target, name) && name in target
    requires Decision(section, os, target, variant, name).Ok? ==>
               Decision(section, os, target, variant, name).value.Some?
    ensures name in Updates(section, os, target, variant)
  {
    PlanCoversUnprotected(section, os, target);
  }

  /** The updates of the second section are refused once, after its additions went through. */
  lemma {:induction false} RefusedAfterAdding(
      sections: seq<string>, source: Config, target: Config, variant: Variant, os: Section, before: Section)
    requires |sections| >= 2 && sections[0] != sections[1]
    requires SectionOf(source, sections[0]) == map[]
    requires os == SectionOf(source, sections[1]) && before == SectionOf(target, sections[1])
    requires Additions(sections[1], os, before) != map[]
    requires Updatable(sections[1], os, before, variant) && Updates(sections[1], os, before, variant) != map[]
    ensures var first := Migrate(sections, source, target, variant, [Accepted, Refused]);
            && !first.completed
            && SectionOf(first.target, sections[1]) == before + Additions(sections[1], os, before)
  {
    var replies := [Accepted, Refused];
    var target' := target[sections[0] := SectionOf(target, sections[0])];
    EmptySectionPasses(sections[0], SectionOf(target, sections[0]), variant, replies);
    assert Migrate(sections, source, target, variant, replies) ==
           Migrate(sections[1..], source, target', variant, replies);
    RefusedUpdates(sections[1], os, before, variant);
  }

  lemma RefusedUpdates(section: string, os: Section, before: Section, variant: Variant)
    requires Additions(section, os, before) != map[]
    requires Updatable(section, os, before, variant) && Updates(section, os, before, variant) != map[]
    ensures MigrateSection(section, os, before, variant, [Accepted, Refused]) ==
            Progress(before + Additions(section, os, before), false, [])
  {
    assert [Accepted, Refused][1..] == [Refused] && [Refused][1..] == [];
  }

  lemma RolesThenMappings()
    ensures SECURITY_CONFIG_SECTIONS[0] == "roles" && SECURITY_CONFIG_SECTIONS[1] == "rolesmapping"
    ensures SECURITY_CONFIG_SECTIONS[0] != SECURITY_CONFIG_SECTIONS[1]
  {
  }

  /** Such a refusal is final if an entry just added blocks: it stops every later run. */
  lemma {:induction false} RefusalIsFinal(
      source: Config, target: Config, variant: Variant, section: string, os: Section, before: Section, name: string,
      attempts: seq<seq<Reply>>, again: seq<Reply>)
    requires section == SECURITY_CONFIG_SECTIONS[1] && SectionOf(source, SECURITY_CONFIG_SECTIONS[0]) == map[]
    requires os == SectionOf(source, section) && before == SectionOf(target, section)
    requires Additions(section, os, before) != map[]
    requires Updatable(section, os, before, variant) && Updates(section, os, before, variant) != map[]
    requires Blocks(Extended, section, os, before, variant, name)
    ensures var first := MigrateAll(source, target, variant, [Accepted, Refused]);
            && !first.completed
            && !MigrateAll(source, AfterRuns(source, first.target, variant, attempts), variant, again).completed
  {
    var first := MigrateAll(source, target, variant, [Accepted, Refused]);
    RolesThenMappings();
    RefusedAfterAdding(SECURITY_CONFIG_SECTIONS, source, target, variant, os, before);
    ResumeUpdatableIff(Extended, section, os, before, variant, SectionOf(first.target, section));
    assert section in SECURITY_CONFIG_SECTIONS;
    CompletesIff(source, first.target, variant, []);
    BlockedForever(source, first.target, variant, attempts, again);
  }

  /** One refused patch, and no later run completes, although the first would have. */
  lemma {:induction false} RefusalCanBeFinal(variant: Variant, attempts: seq<seq<Reply>>, again: seq<Reply>)
    ensures var source := map["rolesmapping" :=
                                map["analysts" := map["hosts" := JNull], "writers" := map["users" := JList([])]]];
            var target := map["rolesmapping" := map["writers" := map["users" := JList([JString("ann")])]]];
            var first := MigrateAll(source, target, variant, [Accepted, Refused]);
            && MigrateAll(source, target, variant, []).completed && !first.completed
            && !MigrateAll(source, AfterRuns(source, first.target, variant, attempts), variant, again).completed
  {
    var added, writers := map["hosts" := JNull], map["users" := JList([])];
    var ann := map["users" := JList([JString("ann")])];
    WritersUpdated(writers, ann, variant);
    OneAddedOneUpdated("analysts", added, "writers", writers, ann, variant, attempts, again);
  }

  /** The role mappings are one to be added without searchable users and one to be updated. */
  lemma {:induction false} OneAddedOneUpdated(
      name: string, added: Entry, updated: string, os: Entry, aiven: Entry, variant: Variant,
      attempts: seq<seq<Reply>>, again: seq<Reply>)
    requires name != updated && name != "manage_snapshots" && updated != "manage_snapshots"
    requires !Flagged(added, SOURCE_FLAGS) && !Flagged(os, SOURCE_FLAGS) && !Flagged(aiven, TARGET_FLAGS)
    requires !SearchableUsers(added) && UpdateEntry("rolesmapping", os, aiven, variant).Ok?
    requires UpdateEntry("rolesmapping", os, aiven, variant).value.Some?
    ensures var source, target := map["rolesmapping" := map[name := added, updated := os]],
                                  map["rolesmapping" := map[updated := aiven]];
            var first := MigrateAll(source, target, variant, [Accepted, Refused]);
            && MigrateAll(source, target, variant, []).completed && !first.completed
            && !MigrateAll(source, AfterRuns(source, first.target, variant, attempts), variant, again).completed
  {
    var mappings, before := map[name := added, updated := os], map[updated := aiven];
    AddedAndUpdated("rolesmapping", name, added, updated, os, aiven, variant, mappings, before);
    RolesThenMappings();
    RefusedOnlySection("rolesmapping", mappings, before, variant, name, attempts, again);
  }

  lemma {:induction false} RefusedOnlySection(
      section: string, os: Section, before: Section, variant: Variant, name: string,
      attempts: seq<seq<Reply>>, again: seq<Reply>)
    requires section == SECURITY_CONFIG_SECTIONS[1]
    requires Additions(section, os, before) != map[]
    requires Updatable(section, os, before, variant) && Updates(section, os, before, variant) != map[]
    requires Blocks(Extended, section, os, before, variant, name)
    ensures var source, target := map[section := os], map[section := before];
            var first := MigrateAll(source, target, variant, [Accepted, Refused]);
            && MigrateAll(source, target, variant, []).completed && !first.completed
            && !MigrateAll(source, AfterRuns(source, first.target, variant, attempts), variant, again).completed
  {
    var source: Config, target: Config := map[section := os], map[section := before];
    RolesThenMappings();
    OtherSectionsEmpty(source, target, variant, section);
    CompletesIff(source, target, variant, []);
    RefusalIsFinal(source, target, variant, section, os, before, name, attempts, again);
  }

  lemma OtherSectionsEmpty(source: Config, target: Config, variant: Variant, section: string)
    requires source.Keys == target.Keys == {section} && Updatable(section, source[section], target[section], variant)
    ensures AllUpdatable(source, target, variant)
  {
  }

  lemma NotProtected(section: string, name: string, os: Section, target: Section)
    requires section == "rolesmapping" && name != "manage_snapshots" && name in os && !Flagged(os[name], SOURCE_FLAGS)
    requires name in target ==> !Flagged(target[name], TARGET_FLAGS)
    ensures !Protected(section, os, target, name)
  {
  }

  lemma {:induction false} OnlyUpdateWorks(
      section: string, updated: string, os: Entry, aiven: Entry, variant: Variant, mappings: Section, before: Section)
    requires updated in mappings && mappings[updated] == os && before == map[updated := aiven]
    requires UpdateEntry(section, os, aiven, variant).Ok?
    ensures Updatable(section, mappings, before, variant)
  {
    UpdateFailsIff(section, os, aiven, variant);
    UpdatableIff(section, mappings, before, variant);
  }

  lemma {:induction false} AddedAndUpdated(
      section: string, name: string, added: Entry, updated: string, os: Entry, aiven: Entry, variant: Variant,
      mappings: Section, before: Section)
    requires section == "rolesmapping" && mappings == map[name := added, updated := os]
    requires before == map[updated := aiven]
    requires name != updated && name != "manage_snapshots" && updated != "manage_snapshots"
    requires !Flagged(added, SOURCE_FLAGS) && !Flagged(os, SOURCE_FLAGS) && !Flagged(aiven, TARGET_FLAGS)
    requires !SearchableUsers(added) && UpdateEntry(section, os, aiven, variant).Ok?
    requires UpdateEntry(section, os, aiven, variant).value.Some?
    ensures Additions(section, mappings, before) != map[] && Updatable(section, mappings, before, variant)
    ensures Updates(section, mappings, before, variant) != map[]
    ensures Blocks(Extended, section, mappings, before, variant, name)
  {
    NotProtected(section, name, mappings, before);
    NotProtected(section, updated, mappings, before);
    AddsName(section, mappings, before, name);
    OnlyUpdateWorks(section, updated, os, aiven, variant, mappings, before);
    UpdatesName(section, mappings, before, variant, updated);
  }

  lemma WritersUpdated(writers: Entry, ann: Entry, variant: Variant)
    requires writers == map["users" := JList([])] && ann == map["users" := JList([JString("ann")])]
    ensures UpdateEntry("rolesmapping", writers, ann, variant).Ok?
    ensures UpdateEntry("rolesmapping", writers, ann, variant).value.Some?
  {
    assert Filtered(writers) == writers && Filtered(ann) == ann;
    assert "users" in writers.Keys + ann.Keys && Truthy(Get(ann, "users"));
    assert Get(writers, "users") != Get(ann, "users");
  }
}
