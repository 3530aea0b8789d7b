/**
 Whole migration runs: per section one patch of additions and one of updates, either of which
 the target may refuse, or carry out without the program learning it; any of these ends the run.
 */
module SecurityMigration {
  import opened Wrappers
  import opened SecurityConfig

  type Config = map<string, Section>

  /** A section the service does not have reads as empty. */
  function SectionOf(c: Config, section: string): Section {
    if section in c then c[section] else map[]
  }

  datatype Reply = Accepted | Refused | Unacknowledged

  /** What became of a section, whether the run goes on, and the replies not used up. */
  datatype Progress = Progress(entries: Section, ok: bool, replies: seq<Reply>)

  /** One patch request; an empty one is not sent. Replies past the given ones are `Accepted`. */
  function Send(entries: Section, change: Section, replies: seq<Reply>): Progress {
    if change == map[] then Progress(entries, true, replies)
    else
      var reply := if replies == [] then Accepted else replies[0];
      var rest := if replies == [] then [] else replies[1..];
      match reply
      case Accepted => Progress(entries + change, true, rest)
      case Refused => Progress(entries, false, rest)
      case Unacknowledged => Progress(entries + change, false, rest)
  }

  function Additions(section: string, os: Section, target: Section): Section {
    map n | n in os && n in SimpleActions(section, os, target).add :: Filtered(os[n])
  }

  function Decision(
      section: string, os: Section, target: Section, variant: Variant, name: string)
    : Result<Option<Entry>>
    requires name in os && name in target
  {
    UpdateEntry(section, os[name], target[name], variant)
  }

  type Decisions = map<string, Result<Option<Entry>>>

  function DecisionsOf(section: string, os: Section, target: Section, variant: Variant): Decisions {
    map n | n in os && n in target :: Decision(section, os, target, variant, n)
  }

  predicate NoneFails(names: set<string>, decisions: Decisions) {
    forall n :: n in names && n in decisions ==> decisions[n].Ok?
  }

  /** The values decided on for the names that change. */
  function Chosen(names: set<string>, decisions: Decisions): Section {
    map n | n in names && n in decisions && decisions[n].Ok? && decisions[n].value.Some? :: decisions[n].value.value
  }

  /** The updater raises no exception for any entry. */
  predicate Updatable(section: string, os: Section, target: Section, variant: Variant) {
    NoneFails(SimpleActions(section, os, target).update, DecisionsOf(section, os, target, variant))
  }

  function Updates(section: string, os: Section, target: Section, variant: Variant): Section
    requires Updatable(section, os, target, variant)
  {
    Chosen(SimpleActions(section, os, target).update, DecisionsOf(section, os, target, variant))
  }

  function AddPart(section: string, os: Section, target: Section, replies: seq<Reply>): Progress {
    Send(target, Additions(section, os, target), replies)
  }

  /** The updates are decided against what was fetched, not against what was just added. */
  function UpdatePart(
      section: string, os: Section, fetched: Section, variant: Variant, entries: Section, replies: seq<Reply>): Progress
  {
    if Updatable(section, os, fetched, variant) then Send(entries, Updates(section, os, fetched, variant), replies)
    else Progress(entries, false, replies)
  }

  /** One section: add, then update. */
  function MigrateSection(
      section: string, os: Section, target: Section, variant: Variant, replies: seq<Reply>)
    : Progress {
    var added := AddPart(section, os, target, replies);
    if added.ok then UpdatePart(section, os, target, variant, added.entries, added.replies) else added
  }

  datatype Run = Run(target: Config, completed: bool)

  function Migrate(sections: seq<string>, source: Config, target: Config, variant: Variant, replies: seq<Reply>): Run {
    if sections == [] then Run(target, true)
    else
      var section := sections[0];
      var p := MigrateSection(section, SectionOf(source, section), SectionOf(target, section), variant, replies);
      var target' := target[section := p.entries];
      if p.ok then Migrate(sections[1..], source, target', variant, p.replies) else Run(target', false)
  }

  // ---------- One section ----------

  lemma SendEnds(entries: Section, change: Section, replies: seq<Reply>)
    ensures var p := Send(entries, change, replies);
            && (p.entries == entries + change || (!p.ok && p.entries == entries))
            && (p.ok ==> p.entries == entries + change)
  {
  }

  /** The section after both patches. */
  function Finished(section: string, os: Section, target: Section, variant: Variant): Section
    requires Updatable(section, os, target, variant)
  {
    target + Additions(section, os, target) + Updates(section, os, target, variant)
  }

  /** Every way a section can end: untouched, added only, or added and updated; it goes on only in the last. */
  lemma {:induction false} SectionEnds(
      section: string, os: Section, target: Section, variant: Variant, replies: seq<Reply>)
    ensures var p := MigrateSection(section, os, target, variant, replies);
            || (!p.ok && p.entries == target)
            || (!p.ok && p.entries == target + Additions(section, os, target))
            || (Updatable(section, os, target, variant) && p.entries == Finished(section, os, target, variant))
    ensures MigrateSection(section, os, target, variant, replies).ok ==>
              Updatable(section, os, target, variant)
              && MigrateSection(section, os, target, variant, replies).entries == Finished(section, os, target, variant)
  {
    var additions := Additions(section, os, target);
    SendEnds(target, additions, replies);
    var added := Send(target, additions, replies);
    if added.ok && Updatable(section, os, target, variant) {
      SendEnds(added.entries, Updates(section, os, target, variant), added.replies);
    }
  }

  ghost predicate SameEntry(a: Section, b: Section, name: string) {
    (name in a <==> name in b) && (name in a ==> a[name] == b[name])
  }

  /** However the section ends, nothing protected has changed. */
  lemma {:induction false} SectionKeepsProtected(
      section: string, os: Section, target: Section, variant: Variant, replies: seq<Reply>, name: string)
    requires Protected(section, os, target, name)
    ensures SameEntry(MigrateSection(section, os, target, variant, replies).entries, target, name)
  {
    SectionEnds(section, os, target, variant, replies);
    PlanCoversUnprotected(section, os, target);
  }

  lemma FinishedKeeps(
      section: string, os: Section, target: Section, variant: Variant, after: Section, name: string)
    requires Updatable(section, os, target, variant) && after == Finished(section, os, target, variant)
    requires Protected(section, os, target, name)
    ensures SameEntry(after, target, name)
  {
    PlanCoversUnprotected(section, os, target);
  }

  lemma FinishedAdds(
      section: string, os: Section, target: Section, variant: Variant, after: Section, name: string)
    requires Updatable(section, os, target, variant) && after == Finished(section, os, target, variant)
    requires !Protected(section, os, target, name) && name !in target
    ensures name in after && after[name] == Filtered(os[name])
  {
    PlanCoversUnprotected(section, os, target);
  }

  lemma FinishedUpdates(
      section: string, os: Section, target: Section, variant: Variant, after: Section, name: string)
    requires Updatable(section, os, target, variant) && after == Finished(section, os, target, variant)
    requires !Protected(section, os, target, name) && name in target
    ensures name in after && Decision(section, os, target, variant, name).Ok?
    ensures after[name] == Outcome(target[name], Decision(section, os, target, variant, name).value)
  {
    PlanCoversUnprotected(section, os, target);
  }

  /** A finished section holds every migratable entry of the source, in agreement with it. */
  lemma FinishedSectionAgrees(
      section: string, os: Section, target: Section, variant: Variant, replies: seq<Reply>, name: string)
    requires MigrateSection(section, os, target, variant, replies).ok
    requires !Protected(section, os, target, name)
    ensures var after := MigrateSection(section, os, target, variant, replies).entries;
            name in after && Agrees(section, os[name], after[name], variant)
  {
    SectionEnds(section, os, target, variant, replies);
    var after := MigrateSection(section, os, target, variant, replies).entries;
    if name in target {
      FinishedUpdates(section, os, target, variant, after, name);
      UpdateAgrees(section, os[name], target[name], variant);
    } else {
      FinishedAdds(section, os, target, variant, after, name);
      var added := Filtered(os[name]);
      assert forall key | key in os[name] && !IsFlag(key) :: Get(added, key) == Get(os[name], key);
    }
  }

  predicate MapsManager(mappings: Section, name: string) {
    name in mappings && IncludesManager(mappings[name])
  }

  lemma {:induction false} SectionKeepsManager(
      os: Section, target: Section, variant: Variant, replies: seq<Reply>, name: string)
    requires MapsManager(target, name)
    ensures MapsManager(MigrateSection("rolesmapping", os, target, variant, replies).entries, name)
  {
    SectionEnds("rolesmapping", os, target, variant, replies);
    PlanCoversUnprotected("rolesmapping", os, target);
    if Updatable("rolesmapping", os, target, variant) && name in SimpleActions("rolesmapping", os, target).update {
      UpdateKeepsManager(os[name], target[name], variant);
    }
  }

  // ---------- Whole runs ----------

  ghost predicate Distinct(sections: seq<string>) {
    forall i, j :: 0 <= i < j < |sections| ==> sections[i] != sections[j]
  }

  /** The section went through its own migration, with some replies, and finished if `done`. */
  ghost predicate Ran(section: string, os: Section, target: Section, variant: Variant, after: Section, done: bool) {
    exists replies :: RanWith(section, os, target, variant, after, done, replies)
  }

  predicate RanWith(
      section: string, os: Section, target: Section, variant: Variant, after: Section, done: bool, replies: seq<Reply>)
  {
    var p := MigrateSection(section, os, target, variant, replies);
    after == p.entries && done == p.ok
  }

  /** The number of sections that are finished when the run ends. */
  function FinishedCount(
      sections: seq<string>, source: Config, target: Config, variant: Variant, replies: seq<Reply>): (k: nat)
    ensures k <= |sections|
  {
    if sections == [] then 0
    else
      var section := sections[0];
      var p := MigrateSection(section, SectionOf(source, section), SectionOf(target, section), variant, replies);
      if p.ok then 1 + FinishedCount(sections[1..], source, target[section := p.entries], variant, p.replies) else 0
  }

  lemma {:induction false} CompletedIffAllFinished(
      sections: seq<string>, source: Config, target: Config, variant: Variant, replies: seq<Reply>)
    ensures Migrate(sections, source, target, variant, replies).completed <==>
              FinishedCount(sections, source, target, variant, replies) == |sections|
  {
    if sections != [] {
      var first := sections[0];
      var p := MigrateSection(first, SectionOf(source, first), SectionOf(target, first), variant, replies);
      if p.ok {
        CompletedIffAllFinished(sections[1..], source, target[first := p.entries], variant, p.replies);
      }
    }
  }

  lemma {:induction false} OthersUntouched(
      sections: seq<string>, source: Config, target: Config, variant: Variant, replies: seq<Reply>, section: string)
    requires section !in sections
    ensures SectionOf(Migrate(sections, source, target, variant, replies).target, section) == SectionOf(target, section)
  {
    if sections != [] {
      var first := sections[0];
      var p := MigrateSection(first, SectionOf(source, first), SectionOf(target, first), variant, replies);
      if p.ok {
        OthersUntouched(sections[1..], source, target[first := p.entries], variant, p.replies, section);
      }
    }
  }

  /**
   How a run that finishes k sections leaves the i-th: finished by its own migration before
   the stop, left by its own migration without finishing at it, and as it was found after it.
   */
  ghost predicate LeftAs(
      section: string, os: Section, before: Section, variant: Variant, after: Section, i: nat, k: nat)
  {
    if i < k then Ran(section, os, before, variant, after, true)
    else if i == k then Ran(section, os, before, variant, after, false)
    else after == before
  }

  /** A run works section by section. */
  lemma {:induction false} RunBySection(
      sections: seq<string>, source: Config, target: Config, variant: Variant, replies: seq<Reply>, i: nat)
    requires Distinct(sections) && i < |sections|
    ensures LeftAs(sections[i], SectionOf(source, sections[i]), SectionOf(target, sections[i]), variant,
                   SectionOf(Migrate(sections, source, target, variant, replies).target, sections[i]), i,
                   FinishedCount(sections, source, target, variant, replies))
  {
    var first, rest := sections[0], sections[1..];
    var p := MigrateSection(first, SectionOf(source, first), SectionOf(target, first), variant, replies);
    var target' := target[first := p.entries];
    if i == 0 {
      assert RanWith(first, SectionOf(source, first), SectionOf(target, first), variant, p.entries, p.ok, replies);
      if p.ok {
        OthersUntouched(rest, source, target', variant, p.replies, first);
      }
    } else {
      assert SectionOf(target', sections[i]) == SectionOf(target, sections[i]);
      if p.ok {
        assert rest[i - 1] == sections[i];
        RunBySection(rest, source, target', variant, p.replies, i - 1);
        LeftLater(sections[i], SectionOf(source, sections[i]), SectionOf(target, sections[i]), variant,
                  SectionOf(Migrate(rest, source, target', variant, p.replies).target, sections[i]), i,
                  FinishedCount(rest, source, target', variant, p.replies));
      }
    }
  }

  lemma LeftLater(section: string, os: Section, before: Section, variant: Variant, after: Section, i: nat, k: nat)
    requires i > 0 && LeftAs(section, os, before, variant, after, i - 1, k)
    ensures LeftAs(section, os, before, variant, after, i, k + 1)
  {
  }

  /** So every section is as it was found or as its own migration leaves it. */
  lemma RunOnSection(
      sections: seq<string>, source: Config, target: Config, variant: Variant, replies: seq<Reply>, section: string)
    requires Distinct(sections)
    ensures var before, after := SectionOf(target, section),
                                 SectionOf(Migrate(sections, source, target, variant, replies).target, section);
            after == before || exists done :: Ran(section, SectionOf(source, section), before, variant, after, done)
  {
    if section in sections {
      var i :| 0 <= i < |sections| && sections[i] == section;
      RunBySection(sections, source, target, variant, replies, i);
    } else {
      OthersUntouched(sections, source, target, variant, replies, section);
    }
  }

  lemma SectionsAreDistinct()
    ensures Distinct(SECURITY_CONFIG_SECTIONS)
  {
  }

  /** The migration of all five sections. */
  function MigrateAll(source: Config, target: Config, variant: Variant, replies: seq<Reply>): Run {
    Migrate(SECURITY_CONFIG_SECTIONS, source, target, variant, replies)
  }

  /** The sections that are finished when the run ends, wherever it ends. */
  function FinishedSections(source: Config, target: Config, variant: Variant, replies: seq<Reply>): seq<string> {
    SECURITY_CONFIG_SECTIONS[..FinishedCount(SECURITY_CONFIG_SECTIONS, source, target, variant, replies)]
  }

  lemma FinishedSectionRan(
      source: Config, target: Config, variant: Variant, replies: seq<Reply>, section: string)
    requires section in FinishedSections(source, target, variant, replies)
    ensures Ran(section, SectionOf(source, section), SectionOf(target, section), variant,
                SectionOf(MigrateAll(source, target, variant, replies).target, section), true)
  {
    var k := FinishedCount(SECURITY_CONFIG_SECTIONS, source, target, variant, replies);
    var i :| 0 <= i < k && SECURITY_CONFIG_SECTIONS[i] == section;
    SectionsAreDistinct();
    RunBySection(SECURITY_CONFIG_SECTIONS, source, target, variant, replies, i);
  }

  /**
   In every run, completed or stopped anywhere, no protected entry is created, changed or
   removed: reserved, static or hidden in the target, predefined untouchable, absent from the
   source, or reserved or static in the source.
   */
  lemma RunKeepsProtected(
      source: Config, target: Config, variant: Variant, replies: seq<Reply>, section: string, name: string)
    requires Protected(section, SectionOf(source, section), SectionOf(target, section), name)
    ensures SameEntry(SectionOf(MigrateAll(source, target, variant, replies).target, section),
                      SectionOf(target, section), name)
  {
    SectionsAreDistinct();
    RunOnSection(SECURITY_CONFIG_SECTIONS, source, target, variant, replies, section);
    var os, before := SectionOf(source, section), SectionOf(target, section);
    var after := SectionOf(MigrateAll(source, target, variant, replies).target, section);
    if after != before {
      var done :| Ran(section, os, before, variant, after, done);
      var r :| RanWith(section, os, before, variant, after, done, r);
      SectionKeepsProtected(section, os, before, variant, r, name);
    }
  }

  /**
   Of every section that a run finished, whether or not it went on to complete, each
   migratable entry exists in the target and agrees with the source; a run that completed has
   finished all of them.
   */
  lemma FinishedSectionsAgree(
      source: Config, target: Config, variant: Variant, replies: seq<Reply>, section: string, name: string)
    requires section in FinishedSections(source, target, variant, replies)
    requires !Protected(section, SectionOf(source, section), SectionOf(target, section), name)
    ensures var after := SectionOf(MigrateAll(source, target, variant, replies).target, section);
            name in after && Agrees(section, SectionOf(source, section)[name], after[name], variant)
  {
    FinishedSectionRan(source, target, variant, replies, section);
    var os, before := SectionOf(source, section), SectionOf(target, section);
    var after := SectionOf(MigrateAll(source, target, variant, replies).target, section);
    var r :| RanWith(section, os, before, variant, after, true, r);
    FinishedSectionAgrees(section, os, before, variant, r, name);
  }

  lemma CompletedIffSectionsFinished(source: Config, target: Config, variant: Variant, replies: seq<Reply>)
    ensures MigrateAll(source, target, variant, replies).completed <==>
              FinishedSections(source, target, variant, replies) ==
                ["roles", "rolesmapping", "actiongroups", "tenants", "internalusers"]
  {
    CompletedIffAllFinished(SECURITY_CONFIG_SECTIONS, source, target, variant, replies);
  }

  /** No run, of the program as written or as meant, takes the manager out of a role mapping. */
  lemma RunKeepsManager(source: Config, target: Config, variant: Variant, replies: seq<Reply>, name: string)
    requires MapsManager(SectionOf(target, "rolesmapping"), name)
    ensures MapsManager(SectionOf(MigrateAll(source, target, variant, replies).target, "rolesmapping"), name)
  {
    SectionsAreDistinct();
    RunOnSection(SECURITY_CONFIG_SECTIONS, source, target, variant, replies, "rolesmapping");
    var os, before := SectionOf(source, "rolesmapping"), SectionOf(target, "rolesmapping");
    var after := SectionOf(MigrateAll(source, target, variant, replies).target, "rolesmapping");
    if after != before {
      var done :| Ran("rolesmapping", os, before, variant, after, done);
      var r :| RanWith("rolesmapping", os, before, variant, after, done, r);
      SectionKeepsManager(os, before, variant, r, name);
    }
  }
}
