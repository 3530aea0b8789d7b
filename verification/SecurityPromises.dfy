/**
 What the migration promises, in the names and values its operators know, after any number of
 runs with any replies.
 */
module SecurityPromises {
  import opened Wrappers
  import opened SecurityConfig
  import opened SecurityMigration
  import opened SecurityRerun

  /** One of the entries that are Aiven's own. */
  predicate AivensOwn(section: string, name: string) {
    || (section == "internalusers" && name == "os-sec-admin")
    || (section == "rolesmapping" && name == "manage_snapshots")
  }

  predicate Set(e: Entry, flag: string) {
    flag in e && e[flag] == JBool(true)
  }

  /** The flag is missing or false. */
  predicate Unset(e: Entry, flag: string) {
    flag in e ==> e[flag] == JBool(false)
  }

  lemma {:induction false} OwnIsProtected(section: string, os: Section, aiven: Section, name: string)
    requires AivensOwn(section, name)
             || name !in os || Set(os[name], "reserved") || Set(os[name], "static")
             || (name in aiven
                 && (Set(aiven[name], "reserved") || Set(aiven[name], "static") || Set(aiven[name], "hidden")))
    ensures Protected(section, os, aiven, name)
  {
    if name in os && (Set(os[name], "reserved") || Set(os[name], "static")) {
      var flag := if Set(os[name], "reserved") then "reserved" else "static";
      assert flag in SOURCE_FLAGS && Truthy(Get(os[name], flag));
    } else if name in aiven && !AivensOwn(section, name) && name in os {
      var flag := if Set(aiven[name], "reserved") then "reserved"
                  else if Set(aiven[name], "static") then "static" else "hidden";
      assert flag in TARGET_FLAGS && Truthy(Get(aiven[name], flag));
    }
  }

  /**
   No number of runs touches what is Aiven's own, what the source does not have or marks
   reserved or static, or what the target marks reserved, static or hidden.
   */
  lemma {:induction false} RunsLeaveAlone(
      source: Config, target: Config, variant: Variant, attempts: seq<seq<Reply>>, section: string, name: string)
    requires var os, aiven := SectionOf(source, section), SectionOf(target, section);
             AivensOwn(section, name)
             || name !in os || Set(os[name], "reserved") || Set(os[name], "static")
             || (name in aiven
                 && (Set(aiven[name], "reserved") || Set(aiven[name], "static") || Set(aiven[name], "hidden")))
    ensures SameEntry(SectionOf(AfterRuns(source, target, variant, attempts), section),
                      SectionOf(target, section), name)
  {
    OwnIsProtected(section, SectionOf(source, section), SectionOf(target, section), name);
    ProtectedThroughout(source, target, variant, attempts, section, name);
  }

  lemma {:induction false} ProtectedThroughout(
      source: Config, target: Config, variant: Variant, attempts: seq<seq<Reply>>, section: string, name: string)
    requires Protected(section, SectionOf(source, section), SectionOf(target, section), name)
    ensures SameEntry(SectionOf(AfterRuns(source, target, variant, attempts), section),
                      SectionOf(target, section), name)
  {
    if attempts != [] {
      var n := |attempts| - 1;
      var now := AfterRuns(source, target, variant, attempts[..n]);
      ProtectedThroughout(source, target, variant, attempts[..n], section, name);
      RunKeepsProtected(source, now, variant, attempts[n], section, name);
    }
  }

  /** Wherever the manager stands among the users of a role mapping, no number of runs unmaps it. */
  lemma {:induction false} RunsKeepListedManager(
      source: Config, target: Config, variant: Variant, attempts: seq<seq<Reply>>, name: string, i: nat)
    requires name in SectionOf(target, "rolesmapping") && ListsManagerAt(SectionOf(target, "rolesmapping")[name], i)
    ensures var mappings := SectionOf(AfterRuns(source, target, variant, attempts), "rolesmapping");
            name in mappings && "users" in mappings[name] && HoldsName(mappings[name]["users"], "os-sec-admin")
  {
    var mappings := SectionOf(AfterRuns(source, target, variant, attempts), "rolesmapping");
    ContainsMeans(SectionOf(target, "rolesmapping")[name]["users"], AIVEN_SECURITY_MANAGER);
    ManagerThroughout(source, target, variant, attempts, name);
    ContainsMeans(mappings[name]["users"], AIVEN_SECURITY_MANAGER);
  }

  lemma {:induction false} ManagerThroughout(
      source: Config, target: Config, variant: Variant, attempts: seq<seq<Reply>>, name: string)
    requires MapsManager(SectionOf(target, "rolesmapping"), name)
    ensures MapsManager(SectionOf(AfterRuns(source, target, variant, attempts), "rolesmapping"), name)
  {
    if attempts != [] {
      var n := |attempts| - 1;
      ManagerThroughout(source, target, variant, attempts[..n], name);
      RunKeepsManager(source, AfterRuns(source, target, variant, attempts[..n]), variant, attempts[n], name);
    }
  }

  /**
   After any number of runs, a next run whose patches are all accepted completes exactly when
   no entry blocks it; a first one, when every migratable entry on both sides can be updated.
   */
  lemma {:induction false} AcceptedRunCompletesIff(
      source: Config, target: Config, variant: Variant, attempts: seq<seq<Reply>>, again: seq<Reply>)
    requires forall reply :: reply in again ==> reply == Accepted
    ensures var now := AfterRuns(source, target, variant, attempts);
            MigrateAll(source, now, variant, again).completed <==> NothingBlocks(source, target, variant, now)
    ensures MigrateAll(source, target, variant, again).completed <==>
              forall section, name ::
                section in ["roles", "rolesmapping", "actiongroups", "tenants", "internalusers"] ==>
                  !CannotUpdate(section, SectionOf(source, section), SectionOf(target, section), variant, name)
  {
    assert AllAccepted(again) by {
      assert forall i | 0 <= i < |again| :: again[i] in again;
    }
    ResumeCompletesIff(source, target, variant, attempts, again);
    FirstRunCompletesIff(source, target, variant, again);
  }

  /** An entry the migration is for. */
  predicate Migratable(section: string, os: Section, aiven: Section, name: string) {
    && !AivensOwn(section, name)
    && name in os && Unset(os[name], "reserved") && Unset(os[name], "static")
    && (name in aiven ==>
          Unset(aiven[name], "reserved") && Unset(aiven[name], "static") && Unset(aiven[name], "hidden"))
  }

  lemma MigratableIsUnprotected(section: string, os: Section, aiven: Section, name: string)
    requires Migratable(section, os, aiven, name)
    ensures !Protected(section, os, aiven, name)
  {
  }

  /**
   A field that the source gives came over. In role mappings this is said of lists with
   members; of these, the users may be followed by the manager.
   */
  predicate CameOver(section: string, os: Entry, after: Entry, key: string) {
    key in os && key !in {"static", "hidden", "reserved"} ==>
      if section != "rolesmapping" then os[key] != JNull ==> key in after && after[key] == os[key]
      else os[key].JList? && os[key].items != [] ==>
             && key in after && after[key].JList?
             && (after[key] == os[key]
                 || (key == "users" && after[key].items == os[key].items + [JString("os-sec-admin")]))
  }

  /**
   A completed run has brought every migratable entry of each of the five sections over, with
   its fields, and marked none of them.
   */
  lemma {:induction false} CompletedRunMigrates(
      source: Config, target: Config, variant: Variant, replies: seq<Reply>, section: string, name: string)
    requires section in ["roles", "rolesmapping", "actiongroups", "tenants", "internalusers"]
    requires MigrateAll(source, target, variant, replies).completed
    requires Migratable(section, SectionOf(source, section), SectionOf(target, section), name)
    ensures var after := SectionOf(MigrateAll(source, target, variant, replies).target, section);
            && name in after
            && (forall key :: CameOver(section, SectionOf(source, section)[name], after[name], key))
            && !Set(after[name], "reserved") && !Set(after[name], "static") && !Set(after[name], "hidden")
  {
    MigratableIsUnprotected(section, SectionOf(source, section), SectionOf(target, section), name);
    CompletedIffSectionsFinished(source, target, variant, replies);
    FinishedSectionsAgree(source, target, variant, replies, section, name);
    var after := SectionOf(MigrateAll(source, target, variant, replies).target, section);
    forall key
      ensures CameOver(section, SectionOf(source, section)[name], after[name], key)
    {
      FieldCameOver(section, SectionOf(source, section)[name], after[name], variant, key);
    }
    CompletedHasFinished(source, target, variant, replies, section);
    EntryResumed(Complete, section, SectionOf(source, section), SectionOf(target, section), variant, after, name);
    UnprotectedIsUnmarked(section, SectionOf(source, section), after, name);
  }

  lemma {:induction false} FieldCameOver(section: string, os: Entry, after: Entry, variant: Variant, key: string)
    requires Agrees(section, os, after, variant)
    ensures CameOver(section, os, after, key)
  {
    if key in os && key !in {"static", "hidden", "reserved"} {
      assert !IsFlag(key);
    }
  }

  lemma {:induction false} UnprotectedIsUnmarked(section: string, os: Section, aiven: Section, name: string)
    requires !Protected(section, os, aiven, name) && name in aiven
    ensures !Set(aiven[name], "reserved") && !Set(aiven[name], "static") && !Set(aiven[name], "hidden")
  {
    if Set(aiven[name], "reserved") || Set(aiven[name], "static") || Set(aiven[name], "hidden") {
      OwnIsProtected(section, os, aiven, name);
    }
  }
}
