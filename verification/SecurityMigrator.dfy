/**
 The program that carries out a migration: dictionaries filtered and merged in place, patch
 operations collected in lists, sections patched one after the other until something fails.
 */
module SecurityMigrator {
  import opened Wrappers
  import opened SecurityConfig
  import opened SecurityMigration

  /** A Python dictionary that several structures may refer to. */
  class Dict {
    var fields: Entry

    constructor (fields: Entry)
      ensures this.fields == fields
    {
      this.fields := fields;
    }
  }

  /** A JSON Patch operation on one entry of a section. */
  datatype PatchOp = AddOp(path: string, value: Entry) | ReplaceOp(path: string, value: Entry)

  /** RFC 6902, sections 4.1 and 4.3: `add` sets the member, `replace` requires it to exist. */
  function ApplyOp(entries: Section, op: PatchOp): Option<Section> {
    match op
    case AddOp(path, value) => Some(entries[path := value])
    case ReplaceOp(path, value) => if path in entries then Some(entries[path := value]) else None
  }

  /** Section 5 of RFC 6902: the first failing operation makes the whole patch fail. */
  function ApplyOps(entries: Section, ops: seq<PatchOp>): Option<Section> {
    if ops == [] then Some(entries)
    else
      match ApplyOps(entries, ops[..|ops| - 1])
      case None => None
      case Some(patched) => ApplyOp(patched, ops[|ops| - 1])
  }

  /** The entries a list of operations writes, the last one winning. */
  function Change(ops: seq<PatchOp>): Section {
    if ops == [] then map[]
    else Change(ops[..|ops| - 1])[ops[|ops| - 1].path := ops[|ops| - 1].value]
  }

  predicate ReplacesExisting(ops: seq<PatchOp>, entries: Section) {
    forall i :: 0 <= i < |ops| && ops[i].ReplaceOp? ==> ops[i].path in entries
  }

  /** A patch that replaces only what exists leaves the section overlaid with its change. */
  lemma {:induction false} ApplyOpsIsOverlay(entries: Section, ops: seq<PatchOp>)
    requires ReplacesExisting(ops, entries)
    ensures ApplyOps(entries, ops) == Some(entries + Change(ops))
  {
    if ops == [] {
      assert entries + map[] == entries;
    } else {
      var front, last := ops[..|ops| - 1], ops[|ops| - 1];
      ApplyOpsIsOverlay(entries, front);
      assert (entries + Change(front))[last.path := last.value] == entries + Change(ops);
    }
  }

  lemma ChangeNext(ops: seq<PatchOp>, op: PatchOp)
    ensures Change(ops + [op]) == Change(ops)[op.path := op.value]
  {
  }

  class Target {
    var config: Config

    /** The target answers as told, and carries out a whole patch or nothing of it. */
    method Patch(section: string, ops: seq<PatchOp>, reply: Reply) returns (ok: bool)
      modifies this
      ensures ok ==> reply == Accepted
      ensures reply == Refused || ApplyOps(SectionOf(old(config), section), ops).None? ==> !ok && config == old(config)
      ensures reply != Refused && ApplyOps(SectionOf(old(config), section), ops).Some? ==>
                && ok == (reply == Accepted)
                && config == old(config)[section := ApplyOps(SectionOf(old(config), section), ops).value]
    {
      var patched := ApplyOps(SectionOf(config, section), ops);
      if reply == Refused || patched == None {
        return false;
      }
      config := config[section := patched.value];
      return reply == Accepted;
    }
  }

  /** Handling one more flag after the others. */
  lemma FilterNext(e: Entry, flags: set<string>, flag: string)
    requires flag != "static" && flag !in flags
    ensures var partly := FilterFlags(e, flags);
            FilterFlags(e, flags + {flag}) ==
              if flag in partly && Truthy(partly[flag]) then partly[flag := JBool(false)] else partly - {flag}
  {
  }

  /** `static` goes; the other flags go too unless they were set, and then come back as false. */
  method InplaceFilterNonMigratableFields(d: Dict)
    modifies d
    ensures d.fields == Filtered(old(d.fields))
  {
    d.fields := d.fields - {"static"};
    var keys := ["hidden", "reserved"];
    ghost var done := {};
    for i := 0 to |keys|
      invariant done == if i == 0 then {} else if i == 1 then {"hidden"} else FLAGS
      invariant d.fields == FilterFlags(old(d.fields), done)
    {
      var key := keys[i];
      FilterNext(old(d.fields), done, key);
      if key in d.fields {
        var value := d.fields[key];
        d.fields := d.fields - {key};
        if Truthy(value) {
          d.fields := d.fields[key := JBool(false)];
        }
      }
      done := done + {key};
    }
  }

  /** The names are listed once each, and each has a dictionary object of its own. */
  ghost predicate Separate(order: seq<string>, dicts: map<string, Dict>) {
    && (forall i :: 0 <= i < |order| ==> order[i] in dicts)
    && (forall i, j :: 0 <= i < j < |order| ==> order[i] != order[j] && dicts[order[i]] != dicts[order[j]])
  }

  /** The dictionaries from the k-th name on hold their entries. */
  ghost predicate Holds(order: seq<string>, k: nat, dicts: map<string, Dict>, entries: Section)
    requires Separate(order, dicts) && forall i :: 0 <= i < |order| ==> order[i] in entries
    reads dicts.Values
  {
    forall i :: k <= i < |order| ==> dicts[order[i]].fields == entries[order[i]]
  }

  /** The filtered entries of the listed names. */
  function FilteredOf(order: seq<string>, entries: Section): Section {
    map n | n in order && n in entries :: Filtered(entries[n])
  }

  lemma FilteredNext(order: seq<string>, entries: Section, k: nat)
    requires k < |order| && order[k] in entries
    ensures FilteredOf(order[..k + 1], entries) ==
            FilteredOf(order[..k], entries)[order[k] := Filtered(entries[order[k]])]
  {
  }

  /** One `add` operation for every entry, with its filtered value. */
  method SimpleAdder(
      order: seq<string>, dicts: map<string, Dict>, ghost entries: Section) returns (actions: seq<PatchOp>)
    requires Separate(order, dicts) && forall i :: 0 <= i < |order| ==> order[i] in entries
    requires Holds(order, 0, dicts, entries)
    modifies dicts.Values
    ensures |actions| == |order| && forall i :: 0 <= i < |actions| ==> actions[i].AddOp?
    ensures Change(actions) == FilteredOf(order, entries)
  {
    actions := [];
    for k := 0 to |order|
      invariant |actions| == k && forall i :: 0 <= i < |actions| ==> actions[i].AddOp?
      invariant Change(actions) == FilteredOf(order[..k], entries)
      invariant Holds(order, k, dicts, entries)
    {
      var values := dicts[order[k]];
      InplaceFilterNonMigratableFields(values);
      ChangeNext(actions, AddOp(order[k], values.fields));
      FilteredNext(order, entries, k);
      actions := actions + [AddOp(order[k], values.fields)];
    }
    assert order[..|order|] == order;
  }

  /**
   The body of the updater's loop for one entry: filter both dictionaries in place, look after
   the manager, compare, and merge the source's values into the target's.
   */
  method UpdateOne(
      section: string, osValues: Dict, aivenValues: Dict, variant: Variant) returns (decision: Result<Option<Entry>>)
    requires osValues != aivenValues
    modifies osValues, aivenValues
    ensures decision.Ok? == UpdateEntry(section, old(osValues.fields), old(aivenValues.fields), variant).Ok?
    ensures decision.Ok? ==> decision == UpdateEntry(section, old(osValues.fields), old(aivenValues.fields), variant)
  {
    if aivenValues.fields == map[] {
      return Err("RuntimeError");
    }
    InplaceFilterNonMigratableFields(osValues);
    InplaceFilterNonMigratableFields(aivenValues);
    var changed := false;
    if section == "rolesmapping" {
      if "users" !in osValues.fields {
        osValues.fields := osValues.fields["users" := JList([])];
      }
      if "users" !in aivenValues.fields {
        return Err("KeyError");
      }
      var mapped := Contains(aivenValues.fields["users"], AIVEN_SECURITY_MANAGER);
      if mapped.Err? {
        return Err(mapped.error);
      }
      if mapped.value {
        var kept := Contains(osValues.fields["users"], AIVEN_SECURITY_MANAGER);
        if kept.Err? {
          return Err(kept.error);
        }
        if !kept.value {
          var users := AddUser(osValues.fields["users"], AIVEN_SECURITY_MANAGER, variant);
          if users.Err? {
            return Err(users.error);
          }
          osValues.fields := osValues.fields["users" := users.value];
        }
      }
      changed := AnyFieldChanged(osValues.fields, aivenValues.fields);
    } else {
      changed := osValues.fields != aivenValues.fields;
    }
    if !changed {
      return Ok(None);
    }
    aivenValues.fields := aivenValues.fields + osValues.fields;
    return Ok(Some(aivenValues.fields));
  }

  /** `for key in keys: ... changed |= ...` */
  method AnyFieldChanged(os: Entry, aiven: Entry) returns (changed: bool)
    ensures changed == MappingChanged(os, aiven)
  {
    changed := false;
    var keys := os.Keys + aiven.Keys;
    while keys != {}
      invariant keys <= os.Keys + aiven.Keys
      invariant changed <==> exists key :: key in os.Keys + aiven.Keys - keys
                               && (Truthy(Get(os, key)) || Truthy(Get(aiven, key))) && Get(os, key) != Get(aiven, key)
      decreases |keys|
    {
      var key :| key in keys;
      keys := keys - {key};
      var osValue, aivenValue := Get(os, key), Get(aiven, key);
      if Truthy(osValue) || Truthy(aivenValue) {
        changed := changed || osValue != aivenValue;
      }
    }
  }

  /** The new values decided on for the first k names, one after the other; a failure ends it. */
  function Planned(order: seq<string>, k: nat, decisions: Decisions): Result<Section>
    requires k <= |order| && forall i :: 0 <= i < |order| ==> order[i] in decisions
  {
    if k == 0 then Ok(map[])
    else
      match Planned(order, k - 1, decisions)
      case Err(e) => Err(e)
      case Ok(change) =>
        match decisions[order[k - 1]]
        case Err(e) => Err(e)
        case Ok(None) => Ok(change)
        case Ok(Some(value)) => Ok(change[order[k - 1] := value])
  }

  /** The order of the names does not matter. */
  lemma {:induction false} PlannedContents(order: seq<string>, k: nat, decisions: Decisions)
    requires k <= |order| && forall i :: 0 <= i < |order| ==> order[i] in decisions
    ensures Planned(order, k, decisions).Ok? <==> forall n :: n in order[..k] ==> decisions[n].Ok?
    ensures Planned(order, k, decisions).Ok? ==>
              Planned(order, k, decisions).value ==
                map n | n in order[..k] && decisions[n].Ok? && decisions[n].value.Some? :: decisions[n].value.value
  {
    if k > 0 {
      PlannedContents(order, k - 1, decisions);
      assert order[..k] == order[..k - 1] + [order[k - 1]];
    }
  }

  lemma {:induction false} FailureStays(order: seq<string>, k: nat, n: nat, decisions: Decisions)
    requires k <= n <= |order| && forall i :: 0 <= i < |order| ==> order[i] in decisions
    requires Planned(order, k, decisions).Err?
    ensures Planned(order, n, decisions).Err?
  {
    if k < n {
      FailureStays(order, k, n - 1, decisions);
    }
  }

  /** The operation a decision adds to the list. */
  function Decided(actions: seq<PatchOp>, name: string, decision: Option<Entry>): seq<PatchOp> {
    match decision
    case None => actions
    case Some(value) => actions + [ReplaceOp(name, value)]
  }

  /** The operations collected after k names write what was planned for them. */
  ghost predicate Collected(actions: seq<PatchOp>, order: seq<string>, k: nat, decisions: Decisions)
    requires k <= |order| && forall i :: 0 <= i < |order| ==> order[i] in decisions
  {
    && Planned(order, k, decisions) == Ok(Change(actions))
    && |actions| <= k
    && forall i :: 0 <= i < |actions| ==> actions[i].ReplaceOp? && actions[i].path in decisions
  }

  /** One more decision either adds what it writes or makes the whole plan fail. */
  lemma {:induction false} CollectNext(
      actions: seq<PatchOp>, order: seq<string>, k: nat, decisions: Decisions, decision: Result<Option<Entry>>)
    requires k < |order| && forall i :: 0 <= i < |order| ==> order[i] in decisions
    requires Collected(actions, order, k, decisions)
    requires decision.Ok? == decisions[order[k]].Ok? && (decision.Ok? ==> decision == decisions[order[k]])
    ensures decision.Err? ==> Planned(order, |order|, decisions).Err?
    ensures decision.Ok? ==> Collected(Decided(actions, order[k], decision.value), order, k + 1, decisions)
  {
    if decision.Err? {
      FailureStays(order, k + 1, |order|, decisions);
    }
  }

  /** The two dictionary structures of the updater: same names, no object in both. */
  ghost predicate Paired(order: seq<string>, dicts: map<string, Dict>, aivenDicts: map<string, Dict>) {
    && Separate(order, dicts) && Separate(order, aivenDicts)
    && dicts.Values !! aivenDicts.Values
  }

  /** The updater's decisions for the listed names. */
  ghost predicate Decides(
      section: string, order: seq<string>, os: Section, aiven: Section, variant: Variant, decisions: Decisions)
  {
    && (forall i :: 0 <= i < |order| ==> order[i] in os && order[i] in aiven && order[i] in decisions)
    && (forall i {:trigger UpdateEntry(section, os[order[i]], aiven[order[i]], variant)} ::
          0 <= i < |order| ==> decisions[order[i]] == UpdateEntry(section, os[order[i]], aiven[order[i]], variant))
  }

  method DecideNext(
      section: string, order: seq<string>, k: nat, dicts: map<string, Dict>, aivenDicts: map<string, Dict>,
      variant: Variant, ghost os: Section, ghost aiven: Section, ghost decisions: Decisions)
    returns (decision: Result<Option<Entry>>)
    requires Paired(order, dicts, aivenDicts) && k < |order|
    requires Decides(section, order, os, aiven, variant, decisions)
    requires Holds(order, k, dicts, os) && Holds(order, k, aivenDicts, aiven)
    modifies dicts.Values, aivenDicts.Values
    ensures Holds(order, k + 1, dicts, os) && Holds(order, k + 1, aivenDicts, aiven)
    ensures decision.Ok? == decisions[order[k]].Ok? && (decision.Ok? ==> decision == decisions[order[k]])
  {
    var name := order[k];
    assert dicts[name] in dicts.Values && aivenDicts[name] in aivenDicts.Values;
    decision := UpdateOne(section, dicts[name], aivenDicts[name], variant);
    forall i | k + 1 <= i < |order|
      ensures dicts[order[i]].fields == os[order[i]] && aivenDicts[order[i]].fields == aiven[order[i]]
    {
      assert dicts[order[i]] in dicts.Values && aivenDicts[order[i]] in aivenDicts.Values;
    }
  }

  /** One `replace` operation for every entry that changes; any exception abandons the whole list. */
  method SectionAwareUpdater(
      section: string, order: seq<string>, dicts: map<string, Dict>, aivenDicts: map<string, Dict>, variant: Variant,
      ghost os: Section, ghost aiven: Section, ghost decisions: Decisions)
    returns (raised: bool, actions: seq<PatchOp>, skipped: nat)
    requires Paired(order, dicts, aivenDicts)
    requires Decides(section, order, os, aiven, variant, decisions)
    requires Holds(order, 0, dicts, os) && Holds(order, 0, aivenDicts, aiven)
    modifies dicts.Values, aivenDicts.Values
    ensures raised == Planned(order, |order|, decisions).Err?
    ensures !raised ==> Collected(actions, order, |order|, decisions)
    ensures !raised ==> |actions| + skipped == |order|
  {
    raised, actions, skipped := false, [], 0;
    for k := 0 to |order|
      invariant Collected(actions, order, k, decisions) && |actions| + skipped == k
      invariant Holds(order, k, dicts, os) && Holds(order, k, aivenDicts, aiven)
    {
      var decision := DecideNext(section, order, k, dicts, aivenDicts, variant, os, aiven, decisions);
      CollectNext(actions, order, k, decisions, decision);
      if decision.Err? {
        raised := true;
        return;
      }
      if decision.value == None {
        skipped := skipped + 1;
      } else {
        actions := actions + [ReplaceOp(order[k], decision.value.value)];
      }
    }
  }

  // ---------- A section, and all sections ----------

  /** The elements of a set, in the order iteration happens to yield them. */
  method InSomeOrder(names: set<string>) returns (order: seq<string>)
    ensures forall n :: n in order <==> n in names
    ensures forall i :: 0 <= i < |order| ==> order[i] in names
    ensures forall i, j :: 0 <= i < j < |order| ==> order[i] != order[j]
  {
    order := [];
    var rest := names;
    while rest != {}
      invariant rest <= names
      invariant forall n :: n in order <==> n in names - rest
      invariant forall i :: 0 <= i < |order| ==> order[i] in names && order[i] !in rest
      invariant forall i, j :: 0 <= i < j < |order| ==> order[i] != order[j]
      decreases |rest|
    {
      var n :| n in rest;
      rest := rest - {n};
      order := order + [n];
    }
  }

  /** The parsed answer of a service: one new dictionary per entry. */
  method Parse(order: seq<string>, entries: Section) returns (dicts: map<string, Dict>)
    requires forall i :: 0 <= i < |order| ==> order[i] in entries
    requires forall i, j :: 0 <= i < j < |order| ==> order[i] != order[j]
    ensures Separate(order, dicts) && Holds(order, 0, dicts, entries)
    ensures fresh(dicts.Values)
  {
    dicts := map[];
    for k := 0 to |order|
      invariant forall n :: n in dicts ==> fresh(dicts[n])
      invariant forall i :: 0 <= i < k ==> order[i] in dicts && dicts[order[i]].fields == entries[order[i]]
      invariant forall i, j :: 0 <= i < j < k ==> dicts[order[i]] != dicts[order[j]]
    {
      var d := new Dict(entries[order[k]]);
      dicts := dicts[order[k] := d];
    }
  }

  lemma ChangeEmptyIff(ops: seq<PatchOp>)
    ensures Change(ops) == map[] <==> ops == []
  {
    if ops != [] {
      assert ops[|ops| - 1].path in Change(ops);
    }
  }

  /** `if actions: result = patch(...)`; the reply tells whether the program goes on. */
  method SendPatch(target: Target, section: string, ops: seq<PatchOp>, replies: seq<Reply>)
    returns (ok: bool, rest: seq<Reply>)
    requires section in target.config && ReplacesExisting(ops, target.config[section])
    modifies target
    ensures var p := Send(old(target.config)[section], Change(ops), replies);
            ok == p.ok && rest == p.replies && target.config == old(target.config)[section := p.entries]
  {
    UpdateNothing(target.config, section);
    ChangeEmptyIff(ops);
    ApplyOpsIsOverlay(target.config[section], ops);
    if ops == [] {
      return true, replies;
    }
    var reply := if replies == [] then Accepted else replies[0];
    rest := if replies == [] then [] else replies[1..];
    ok := target.Patch(section, ops, reply);
  }

  lemma AdditionsAre(section: string, os: Section, fetched: Section, order: seq<string>)
    requires forall n :: n in order <==> n in SimpleActions(section, os, fetched).add
    ensures FilteredOf(order, os) == Additions(section, os, fetched)
  {
  }

  lemma PlannedIsChosen(order: seq<string>, names: set<string>, decisions: Decisions)
    requires forall n :: n in order <==> n in names
    requires forall i :: 0 <= i < |order| ==> order[i] in decisions
    ensures Planned(order, |order|, decisions).Ok? <==> NoneFails(names, decisions)
    ensures NoneFails(names, decisions) ==> Planned(order, |order|, decisions) == Ok(Chosen(names, decisions))
  {
    PlannedContents(order, |order|, decisions);
    assert order[..|order|] == order;
    if NoneFails(names, decisions) {
      assert Planned(order, |order|, decisions).value == Chosen(names, decisions);
    }
  }

  /** The additions of one section: collect the operations and send them. */
  method AddMissing(section: string, os: Section, fetched: Section, target: Target, replies: seq<Reply>)
    returns (ok: bool, rest: seq<Reply>)
    requires section in target.config && target.config[section] == fetched
    modifies target
    ensures AddPart(section, os, fetched, replies) == Progress(SectionOf(target.config, section), ok, rest)
    ensures target.config == old(target.config)[section := SectionOf(target.config, section)]
  {
    PlanCoversUnprotected(section, os, fetched);
    var order := InSomeOrder(SimpleActions(section, os, fetched).add);
    var dicts := Parse(order, os);
    var additions := SimpleAdder(order, dicts, os);
    AdditionsAre(section, os, fetched, order);
    ok, rest := SendPatch(target, section, additions, replies);
  }

  /** The updates of one section: decided against what was fetched before anything was added. */
  method UpdateExisting(
      section: string, os: Section, fetched: Section, target: Target, variant: Variant, replies: seq<Reply>)
    returns (ok: bool, rest: seq<Reply>)
    requires section in target.config && fetched.Keys <= target.config[section].Keys
    modifies target
    ensures UpdatePart(section, os, fetched, variant, old(target.config)[section], replies) ==
              Progress(SectionOf(target.config, section), ok, rest)
    ensures target.config == old(target.config)[section := SectionOf(target.config, section)]
  {
    PlanCoversUnprotected(section, os, fetched);
    var order := InSomeOrder(SimpleActions(section, os, fetched).update);
    var dicts := Parse(order, os);
    var aivenDicts := Parse(order, fetched);
    ghost var decisions := DecisionsOf(section, os, fetched, variant);
    var raised, updates, skipped :=
      SectionAwareUpdater(section, order, dicts, aivenDicts, variant, os, fetched, decisions);
    PlannedIsChosen(order, SimpleActions(section, os, fetched).update, decisions);
    if raised {
      UpdateNothing(target.config, section);
      return false, replies;
    }
    ok, rest := SendPatch(target, section, updates, replies);
  }

  /** One round of the loop in `main`. */
  method MigrateOne(
      section: string, os: Section, fetched: Section, target: Target, variant: Variant, replies: seq<Reply>)
    returns (ok: bool, rest: seq<Reply>)
    requires section in target.config && target.config[section] == fetched
    modifies target
    ensures MigrateSection(section, os, fetched, variant, replies) ==
              Progress(SectionOf(target.config, section), ok, rest)
    ensures target.config == old(target.config)[section := SectionOf(target.config, section)]
  {
    ghost var before := target.config;
    ok, rest := AddMissing(section, os, fetched, target, replies);
    if ok {
      ghost var added := SectionOf(target.config, section);
      AddingKeepsNames(section, os, fetched, replies);
      ok, rest := UpdateExisting(section, os, fetched, target, variant, rest);
      UpdateTwice(before, section, added, SectionOf(target.config, section));
    }
  }

  lemma UpdateTwice(c: Config, section: string, first: Section, second: Section)
    ensures c[section := first][section := second] == c[section := second]
  {
  }

  lemma UpdateNothing(c: Config, section: string)
    requires section in c
    ensures c[section := c[section]] == c
  {
  }

  lemma AddingKeepsNames(section: string, os: Section, fetched: Section, replies: seq<Reply>)
    ensures fetched.Keys <= AddPart(section, os, fetched, replies).entries.Keys
  {
  }

  /**
   The loop of `main`, on a target that has all the sections, planned on what was fetched
   before the first patch: it leaves the target as a run of the migration is specified to, and
   completes exactly when that does.
   */
  method MigrateSections(sections: seq<string>, source: Config, target: Target, variant: Variant, replies: seq<Reply>)
    returns (completed: bool)
    requires Distinct(sections) && forall section :: section in sections ==> section in target.config
    modifies target
    ensures Run(target.config, completed) == Migrate(sections, source, old(target.config), variant, replies)
  {
    var fetched := target.config;
    var rest := replies;
    for i := 0 to |sections|
      invariant forall j :: i <= j < |sections| ==>
                  sections[j] in target.config && target.config[sections[j]] == fetched[sections[j]]
      invariant Migrate(sections[i..], source, target.config, variant, rest) ==
                Migrate(sections, source, old(target.config), variant, replies)
    {
      var ok;
      assert sections[i..][1..] == sections[i + 1..];
      ok, rest := MigrateOne(sections[i], SectionOf(source, sections[i]), fetched[sections[i]], target, variant, rest);
      if !ok {
        return false;
      }
    }
    return true;
  }
}
