/**
 Security configuration entries, which of them may be migrated, and what one entry of the
 source does to the entry of the same name in the target.
 */
module SecurityConfig {
  import opened Wrappers

  datatype Json =
    | JNull
    | JBool(b: bool)
    | JNumber(n: int)
    | JString(s: string)
    | JList(items: seq<Json>)
    | JObject(members: map<string, Json>)

  type Entry = map<string, Json>

  type Section = map<string, Entry>

  const SECURITY_CONFIG_SECTIONS := ["roles", "rolesmapping", "actiongroups", "tenants", "internalusers"]
  const AIVEN_SECURITY_MANAGER := "os-sec-admin"

  /** Python truth. */
  predicate Truthy(j: Json) {
    match j
    case JNull => false
    case JBool(b) => b
    case JNumber(n) => n != 0
    case JString(s) => s != ""
    case JList(items) => items != []
    case JObject(members) => members != map[]
  }

  /** d.get(key, None) */
  function Get(d: Entry, key: string): Json {
    if key in d then d[key] else JNull
  }

  // ---------- Which entries to add and which to update ----------

  const SOURCE_FLAGS := {"reserved", "static"}
  const TARGET_FLAGS := {"reserved", "static", "hidden"}

  predicate Flagged(e: Entry, fields: set<string>) {
    exists field :: field in fields && Truthy(Get(e, field))
  }

  function UntouchableIfFieldSet(entries: Section, fields: set<string>): (set<string>, set<string>) {
    (entries.Keys, set k | k in entries && Flagged(entries[k], fields))
  }

  function SimpleAnalyzes(opendistro: Section, aiven: Section, untouchables: set<string>): (set<string>, set<string>) {
    var (osEntries, osUnmovable) := UntouchableIfFieldSet(opendistro, SOURCE_FLAGS);
    var (aivenEntries, flagged) := UntouchableIfFieldSet(aiven, TARGET_FLAGS);
    var aivenUntouchables := flagged + untouchables;
    var validOsEntries := osEntries - osUnmovable - aivenUntouchables;
    (validOsEntries - aivenEntries, validOsEntries * aivenEntries)
  }

  function PredefinedUntouchables(section: string): set<string> {
    if section == "internalusers" then {AIVEN_SECURITY_MANAGER}
    else if section == "rolesmapping" then {"manage_snapshots"}
    else {}
  }

  datatype Actions = Actions(add: set<string>, update: set<string>)

  /** simple_actions for one section; the entries themselves stay in the source configuration. */
  function SimpleActions(section: string, opendistro: Section, aiven: Section): Actions {
    var (added, updated) := SimpleAnalyzes(opendistro, aiven, PredefinedUntouchables(section));
    Actions(added, updated)
  }

  /** What the migration promises to leave alone. */
  predicate Protected(section: string, opendistro: Section, aiven: Section, name: string) {
    || name in PredefinedUntouchables(section)
    || name !in opendistro
    || Flagged(opendistro[name], SOURCE_FLAGS)
    || (name in aiven && Flagged(aiven[name], TARGET_FLAGS))
  }

  /** The plan adds what is missing and updates what is there, of everything not protected. */
  lemma PlanCoversUnprotected(section: string, opendistro: Section, aiven: Section)
    ensures var Actions(add, update) := SimpleActions(section, opendistro, aiven);
            && (forall n :: n in add <==> !Protected(section, opendistro, aiven, n) && n !in aiven)
            && (forall n :: n in update <==> !Protected(section, opendistro, aiven, n) && n in aiven)
  {
  }

  // ---------- The flag filter ----------

  /** Drop `static`; of the listed flags keep only those that were set, as false. */
  function FilterFlags(e: Entry, flags: set<string>): Entry {
    map k | k in e && k != "static" && (k in flags ==> Truthy(e[k])) :: if k in flags then JBool(false) else e[k]
  }

  const FLAGS := {"hidden", "reserved"}

  function Filtered(e: Entry): Entry {
    FilterFlags(e, FLAGS)
  }

  predicate IsFlag(key: string) {
    key == "static" || key in FLAGS
  }

  /** The filter is not idempotent: a second pass drops the flags the first one reset. */
  lemma FilterIdempotentIff(e: Entry)
    ensures Filtered(Filtered(e)) == Filtered(e) <==> !Flagged(e, FLAGS)
  {
    if Flagged(e, FLAGS) {
      var flag :| flag in FLAGS && Truthy(Get(e, flag));
      assert flag in Filtered(e) && flag !in Filtered(Filtered(e));
    } else {
      assert forall flag | flag in FLAGS :: !Truthy(Get(e, flag));
      assert Filtered(Filtered(e)) == Filtered(e);
    }
  }

  // ---------- Updating one entry ----------

  predicate HasSubstring(s: string, t: string) {
    exists i :: 0 <= i <= |s| && t <= s[i..]
  }

  /** `name in value` */
  function Contains(value: Json, name: string): Result<bool> {
    match value
    case JList(items) => Ok(JString(name) in items)
    case JString(s) => Ok(HasSubstring(s, name))
    case JObject(members) => Ok(name in members)
    case _ => Err("TypeError")
  }

  /** The name is one of the items, part of the string, or a member. */
  predicate HoldsName(value: Json, name: string) {
    match value
    case JList(items) => exists i :: 0 <= i < |items| && items[i] == JString(name)
    case JString(s) => exists i, j :: 0 <= i <= j <= |s| && s[i..j] == name
    case JObject(members) => name in members
    case _ => false
  }

  lemma {:induction false} SubstringIff(s: string, t: string)
    ensures HasSubstring(s, t) <==> exists i, j :: 0 <= i <= j <= |s| && s[i..j] == t
  {
    if HasSubstring(s, t) {
      var i :| 0 <= i <= |s| && t <= s[i..];
      assert s[i..i + |t|] == t;
    }
    if i, j :| 0 <= i <= j <= |s| && s[i..j] == t {
      assert t <= s[i..];
    }
  }

  /** Looking a name up finds it wherever it stands, and raises only on values without contents. */
  lemma {:induction false} ContainsMeans(value: Json, name: string)
    ensures Contains(value, name) == Ok(true) <==> HoldsName(value, name)
    ensures Contains(value, name).Ok? <==> value.JList? || value.JString? || value.JObject?
  {
    if value.JString? {
      SubstringIff(value.s, name);
    }
  }

  /** The entry has users in which the manager can be looked up. */
  predicate SearchableUsers(e: Entry) {
    "users" in e && Contains(e["users"], AIVEN_SECURITY_MANAGER).Ok?
  }

  /** The manager is found among the users. */
  predicate IncludesManager(e: Entry) {
    "users" in e && Contains(e["users"], AIVEN_SECURITY_MANAGER) == Ok(true)
  }

  /**
   The source calls `.add` on the users, which no JSON value has; `Appending` is what was
   evidently meant.
   */
  datatype Variant = AsWritten | Appending

  function AddUser(users: Json, name: string, variant: Variant): Result<Json> {
    if variant == Appending && users.JList? then Ok(JList(users.items + [JString(name)])) else Err("AttributeError")
  }

  function WithUsers(os: Entry): Entry {
    if "users" in os then os else os["users" := JList([])]
  }

  /** Keep the manager mapped where the target has it mapped. */
  function KeepManager(os: Entry, aiven: Entry, variant: Variant): Result<Entry>
    requires "users" in os
  {
    if "users" !in aiven then Err("KeyError")
    else
      match Contains(aiven["users"], AIVEN_SECURITY_MANAGER)
      case Err(e) => Err(e)
      case Ok(false) => Ok(os)
      case Ok(true) =>
        match Contains(os["users"], AIVEN_SECURITY_MANAGER)
        case Err(e) => Err(e)
        case Ok(true) => Ok(os)
        case Ok(false) =>
          match AddUser(os["users"], AIVEN_SECURITY_MANAGER, variant)
          case Err(e) => Err(e)
          case Ok(users) => Ok(os["users" := users])
  }

  /** For role mappings a missing, null or empty value is the same as any other of these. */
  predicate MappingChanged(os: Entry, aiven: Entry) {
    exists key :: key in os.Keys + aiven.Keys
      && (Truthy(Get(os, key)) || Truthy(Get(aiven, key))) && Get(os, key) != Get(aiven, key)
  }

  /** What the updater decides for one entry: an exception, nothing to do, or a new value. */
  function UpdateEntry(section: string, os: Entry, aiven: Entry, variant: Variant): Result<Option<Entry>> {
    if aiven == map[] then Err("RuntimeError")
    else
      var osValues, aivenValues := Filtered(os), Filtered(aiven);
      if section == "rolesmapping" then
        match KeepManager(WithUsers(osValues), aivenValues, variant)
        case Err(e) => Err(e)
        case Ok(kept) => Ok(if MappingChanged(kept, aivenValues) then Some(aivenValues + kept) else None)
      else Ok(if osValues != aivenValues then Some(aivenValues + osValues) else None)
  }

  /** The entry the target is left with, if the decision is carried out. */
  function Outcome(aiven: Entry, decision: Option<Entry>): Entry {
    match decision
    case None => aiven
    case Some(value) => value
  }

  /** Agreement on one field; role mappings do not tell empty values apart. */
  predicate SameField(section: string, a: Entry, b: Entry, key: string) {
    Get(a, key) == Get(b, key) || (section == "rolesmapping" && !Truthy(Get(a, key)) && !Truthy(Get(b, key)))
  }

  /** The users of a mapping as the repaired program may leave them: the source's, and then the manager. */
  predicate ManagerAppended(os: Entry, entry: Entry) {
    && Get(os, "users").JList?
    && Get(entry, "users") == JList(Get(os, "users").items + [JString(AIVEN_SECURITY_MANAGER)])
  }

  /**
   The entry agrees with the source on every field the source gives, flags aside; only the
   repaired program may extend a mapping's users, by the manager and nothing else.
   */
  ghost predicate Agrees(section: string, os: Entry, entry: Entry, variant: Variant) {
    forall key :: key in os && !IsFlag(key) ==>
      SameField(section, os, entry, key) ||
      (variant == Appending && section == "rolesmapping" && key == "users" && ManagerAppended(os, entry))
  }

  lemma UpdateAgrees(section: string, os: Entry, aiven: Entry, variant: Variant)
    requires UpdateEntry(section, os, aiven, variant).Ok?
    ensures Agrees(section, os, Outcome(aiven, UpdateEntry(section, os, aiven, variant).value), variant)
  {
    var osValues, aivenValues := Filtered(os), Filtered(aiven);
    var decision := UpdateEntry(section, os, aiven, variant).value;
    var after := Outcome(aiven, decision);
    forall key | key in os && !IsFlag(key)
      ensures SameField(section, os, after, key) ||
              (variant == Appending && section == "rolesmapping" && key == "users" && ManagerAppended(os, after))
    {
      assert key in osValues && osValues[key] == os[key];
      assert Get(aivenValues, key) == Get(aiven, key);
      if section == "rolesmapping" {
        var kept := KeepManager(WithUsers(osValues), aivenValues, variant).value;
        assert key in kept && (key != "users" ==> kept[key] == os[key]);
      }
    }
  }

  lemma UnflaggedFilterSame(e: Entry)
    requires !Flagged(e, TARGET_FLAGS)
    ensures forall key :: key in Filtered(e) ==> !IsFlag(key)
    ensures forall key :: !IsFlag(key) ==> Get(Filtered(e), key) == Get(e, key) && (key in Filtered(e) <==> key in e)
  {
  }

  /**
   Between entries without flags, an update is skipped exactly when there is nothing to do: the
   fields are the same on both sides.
   */
  lemma SkippedIffSame(section: string, os: Entry, aiven: Entry)
    requires section != "rolesmapping" && aiven != map[]
    requires !Flagged(os, TARGET_FLAGS) && !Flagged(aiven, TARGET_FLAGS)
    ensures UpdateEntry(section, os, aiven, AsWritten) == Ok(None) <==>
              forall key :: !IsFlag(key) ==> (key in os <==> key in aiven) && Get(os, key) == Get(aiven, key)
  {
    UnflaggedFilterSame(os);
    UnflaggedFilterSame(aiven);
    SameFieldsSameEntry(Filtered(os), Filtered(aiven));
  }

  lemma SameFieldsSameEntry(a: Entry, b: Entry)
    requires forall key :: key in a || key in b ==> !IsFlag(key)
    ensures a == b <==> forall key :: !IsFlag(key) ==> (key in a <==> key in b) && Get(a, key) == Get(b, key)
  {
  }

  /** The same for role mappings, where empty values count as the same. */
  lemma SkippedMappingIff(os: Entry, aiven: Entry)
    requires !Flagged(os, TARGET_FLAGS) && !Flagged(aiven, TARGET_FLAGS)
    requires UpdateEntry("rolesmapping", os, aiven, AsWritten).Ok?
    ensures UpdateEntry("rolesmapping", os, aiven, AsWritten) == Ok(None) <==>
              forall key :: !IsFlag(key) ==> SameField("rolesmapping", os, aiven, key)
  {
    UnflaggedFilterSame(os);
    UnflaggedFilterSame(aiven);
    assert KeepManager(WithUsers(Filtered(os)), Filtered(aiven), AsWritten).value == WithUsers(Filtered(os));
    SkippedMappingIffSame(WithUsers(Filtered(os)), Filtered(aiven), os, aiven);
  }

  lemma SkippedMappingIffSame(kept: Entry, filtered: Entry, os: Entry, aiven: Entry)
    requires forall key :: key in kept || key in filtered ==> !IsFlag(key)
    requires forall key :: !IsFlag(key) ==> Get(filtered, key) == Get(aiven, key)
    requires forall key :: !IsFlag(key) && key != "users" ==> Get(kept, key) == Get(os, key)
    requires Get(kept, "users") == if "users" in os then os["users"] else JList([])
    ensures !MappingChanged(kept, filtered) <==>
              forall key :: !IsFlag(key) ==> SameField("rolesmapping", os, aiven, key)
  {
  }

  /** A role mapping whose users include the manager still includes it after any update. */
  lemma UpdateKeepsManager(os: Entry, aiven: Entry, variant: Variant)
    requires UpdateEntry("rolesmapping", os, aiven, variant).Ok?
    requires IncludesManager(aiven)
    ensures IncludesManager(Outcome(aiven, UpdateEntry("rolesmapping", os, aiven, variant).value))
  {
    var kept := KeepManager(WithUsers(Filtered(os)), Filtered(aiven), variant).value;
    assert Contains(kept["users"], AIVEN_SECURITY_MANAGER) == Ok(true);
  }

  /** What the updater writes on top of the target's values. */
  function Written(section: string, os: Entry, aiven: Entry, variant: Variant): Entry
    requires aiven != map[] && UpdateEntry(section, os, aiven, variant).Ok?
  {
    if section == "rolesmapping" then KeepManager(WithUsers(Filtered(os)), Filtered(aiven), variant).value
    else Filtered(os)
  }

  lemma WrittenFlags(section: string, os: Entry, aiven: Entry, variant: Variant)
    requires UpdateEntry(section, os, aiven, variant).Ok?
    ensures forall key :: key in Written(section, os, aiven, variant) && IsFlag(key) ==>
              key != "static" && Written(section, os, aiven, variant)[key] == JBool(false)
  {
  }

  /** Overlaying values whose flags are reset on values without flags, then filtering, only loses those flags. */
  lemma FilterOverlay(base: Entry, written: Entry)
    requires forall key :: key in base ==> !IsFlag(key)
    requires forall key :: key in written && IsFlag(key) ==> key != "static" && written[key] == JBool(false)
    ensures Filtered(base + written) + written == base + written
    ensures forall key :: !IsFlag(key) ==> Get(Filtered(base + written), key) == Get(base + written, key)
    ensures !Flagged(base + written, TARGET_FLAGS)
  {
  }

  /** An update never leaves an entry that a later run must not touch. */
  lemma UpdateLeavesUnflagged(section: string, os: Entry, aiven: Entry, variant: Variant)
    requires UpdateEntry(section, os, aiven, variant).Ok?
    requires !Flagged(aiven, TARGET_FLAGS)
    ensures !Flagged(Outcome(aiven, UpdateEntry(section, os, aiven, variant).value), TARGET_FLAGS)
  {
    UnflaggedFilterSame(aiven);
    WrittenFlags(section, os, aiven, variant);
    FilterOverlay(Filtered(aiven), Written(section, os, aiven, variant));
  }

  /** Looking the manager up in the users just written leads to the same users. */
  lemma KeepManagerAgain(os: Entry, aiven: Entry, after: Entry, variant: Variant)
    requires "users" in os && KeepManager(os, aiven, variant).Ok?
    requires "users" in after && after["users"] == KeepManager(os, aiven, variant).value["users"]
    requires KeepManager(os, after, variant).Ok?
    ensures KeepManager(os, after, variant) == KeepManager(os, aiven, variant)
  {
  }

  /**
   Updating an updated entry again writes the same value or skips it, and fails exactly when
   the first update wrote users that cannot be searched into a role mapping.
   */
  lemma {:induction false} UpdateAgain(section: string, os: Entry, aiven: Entry, variant: Variant)
    requires !Flagged(aiven, TARGET_FLAGS)
    requires UpdateEntry(section, os, aiven, variant).Ok?
    ensures var after := Outcome(aiven, UpdateEntry(section, os, aiven, variant).value);
            var again := UpdateEntry(section, os, after, variant);
            && (again.Err? <==> section == "rolesmapping" && WritesBadUsers(os, aiven))
            && (again.Ok? ==> Outcome(after, again.value) == after)
  {
    var decision := UpdateEntry(section, os, aiven, variant).value;
    if decision.Some? {
      UnflaggedFilterSame(aiven);
      WrittenFlags(section, os, aiven, variant);
      UpdateForm(section, os, aiven, variant);
      FilterOverlay(Filtered(aiven), Written(section, os, aiven, variant));
      UpdateAgainFailsIff(section, os, aiven, decision.value, variant);
      if UpdateEntry(section, os, decision.value, variant).Ok? {
        UpdateForm(section, os, decision.value, variant);
        WrittenAgain(section, os, aiven, decision.value, variant);
      }
    } else if section == "rolesmapping" {
      SkippedWritesNothing(os, aiven, variant);
    }
  }

  /** The source's mapping has users that cannot be searched, and differs from the target's. */
  predicate WritesBadUsers(os: Entry, aiven: Entry) {
    && "users" in os && Contains(os["users"], AIVEN_SECURITY_MANAGER).Err?
    && MappingChanged(Filtered(os), Filtered(aiven))
  }

  lemma UsersNotSearched(os: Entry, aiven: Entry, variant: Variant)
    requires KeepManager(WithUsers(Filtered(os)), Filtered(aiven), variant).Ok?
    requires "users" in os && Contains(os["users"], AIVEN_SECURITY_MANAGER).Err?
    ensures KeepManager(WithUsers(Filtered(os)), Filtered(aiven), variant).value == Filtered(os)
  {
  }

  lemma SkippedWritesNothing(os: Entry, aiven: Entry, variant: Variant)
    requires UpdateEntry("rolesmapping", os, aiven, variant) == Ok(None)
    ensures !WritesBadUsers(os, aiven)
  {
    if "users" in os && Contains(os["users"], AIVEN_SECURITY_MANAGER).Err? {
      UsersNotSearched(os, aiven, variant);
    }
  }

  lemma KeepManagerAgainFailsIff(os: Entry, aiven: Entry, after: Entry, variant: Variant)
    requires "users" in os && KeepManager(os, aiven, variant).Ok?
    requires "users" in after && after["users"] == KeepManager(os, aiven, variant).value["users"]
    ensures KeepManager(os, after, variant).Err? <==> Contains(os["users"], AIVEN_SECURITY_MANAGER).Err?
  {
  }

  lemma {:induction false} UpdateAgainFailsIff(section: string, os: Entry, aiven: Entry, after: Entry, variant: Variant)
    requires UpdateEntry(section, os, aiven, variant) == Ok(Some(after))
    requires after == Filtered(aiven) + Written(section, os, aiven, variant)
    requires Get(Filtered(after), "users") == Get(after, "users")
    ensures UpdateEntry(section, os, after, variant).Err? <==> section == "rolesmapping" && WritesBadUsers(os, aiven)
  {
    if section == "rolesmapping" {
      var written, kept := WithUsers(Filtered(os)), Written(section, os, aiven, variant);
      assert after["users"] == kept["users"] && Filtered(after)["users"] == kept["users"];
      KeepManagerAgainFailsIff(written, Filtered(aiven), Filtered(after), variant);
      assert UpdateEntry(section, os, after, variant).Err? <==> KeepManager(written, Filtered(after), variant).Err?;
      if "users" in os && Contains(os["users"], AIVEN_SECURITY_MANAGER).Err? {
        UsersNotSearched(os, aiven, variant);
      }
    }
  }

  lemma UpdateForm(section: string, os: Entry, aiven: Entry, variant: Variant)
    requires UpdateEntry(section, os, aiven, variant).Ok?
    ensures var decision := UpdateEntry(section, os, aiven, variant).value;
            decision.Some? ==> decision.value == Filtered(aiven) + Written(section, os, aiven, variant)
  {
  }

  lemma WrittenAgain(section: string, os: Entry, aiven: Entry, after: Entry, variant: Variant)
    requires UpdateEntry(section, os, aiven, variant).Ok? && UpdateEntry(section, os, after, variant).Ok?
    requires after == Filtered(aiven) + Written(section, os, aiven, variant)
    ensures Written(section, os, after, variant) == Written(section, os, aiven, variant)
  {
    if section == "rolesmapping" {
      assert Get(Filtered(after), "users") == Get(after, "users");
      KeepManagerAgain(WithUsers(Filtered(os)), Filtered(aiven), Filtered(after), variant);
    }
  }

  /**
   Updating an entry that was added by an earlier run: the value is the same, but the run
   stops with an exception exactly when the added value is empty or, for a role mapping, has
   no users to look the manager up in.
   */
  lemma UpdateAfterAdd(section: string, os: Entry, variant: Variant)
    ensures var again := UpdateEntry(section, os, Filtered(os), variant);
            again.Ok? ==> Outcome(Filtered(os), again.value) == Filtered(os)
    ensures UpdateEntry(section, os, Filtered(os), variant).Err? <==>
              Filtered(os) == map[] || (section == "rolesmapping" && !SearchableUsers(os))
    ensures !Flagged(Filtered(os), TARGET_FLAGS)
  {
  }

  /** The manager is the i-th of the users. */
  predicate ListsManagerAt(e: Entry, i: nat) {
    "users" in e && e["users"].JList? && i < |e["users"].items| && e["users"].items[i] == JString("os-sec-admin")
  }

  /** Wherever the manager stands among the target's users, an update leaves it among them. */
  lemma {:induction false} UpdateKeepsListedManager(os: Entry, aiven: Entry, variant: Variant, i: nat)
    requires ListsManagerAt(aiven, i) && UpdateEntry("rolesmapping", os, aiven, variant).Ok?
    ensures var after := Outcome(aiven, UpdateEntry("rolesmapping", os, aiven, variant).value);
            "users" in after && HoldsName(after["users"], "os-sec-admin")
  {
    var after := Outcome(aiven, UpdateEntry("rolesmapping", os, aiven, variant).value);
    ContainsMeans(aiven["users"], AIVEN_SECURITY_MANAGER);
    UpdateKeepsManager(os, aiven, variant);
    ContainsMeans(after["users"], AIVEN_SECURITY_MANAGER);
  }

  /** As written, the program raises an exception exactly where the target lists the manager and the source does not. */
  lemma {:induction false} ListedManagerRaisesIff(os: Entry, aiven: Entry)
    requires "users" in aiven && aiven["users"].JList? && ("users" in os ==> os["users"].JList?)
    ensures UpdateEntry("rolesmapping", os, aiven, AsWritten).Err? <==>
              (exists i :: ListsManagerAt(aiven, i)) && !exists j :: ListsManagerAt(os, j)
  {
    UpdateFailsIff("rolesmapping", os, aiven, AsWritten);
    ListedIff(aiven);
    if "users" in os {
      ListedIff(os);
    }
  }

  lemma {:induction false} ListedIff(e: Entry)
    requires "users" in e && e["users"].JList?
    ensures IncludesManager(e) <==> exists i :: ListsManagerAt(e, i)
  {
    ContainsMeans(e["users"], AIVEN_SECURITY_MANAGER);
    if IncludesManager(e) {
      var i :| 0 <= i < |e["users"].items| && e["users"].items[i] == JString("os-sec-admin");
      assert ListsManagerAt(e, i);
    }
  }

  /** What only the target has, an update leaves as it is. */
  lemma {:induction false} UpdateKeepsOthers(section: string, os: Entry, aiven: Entry, variant: Variant, key: string)
    requires UpdateEntry(section, os, aiven, variant).Ok?
    requires key !in os && key !in {"static", "hidden", "reserved"} && !(section == "rolesmapping" && key == "users")
    ensures var after := Outcome(aiven, UpdateEntry(section, os, aiven, variant).value);
            (key in after <==> key in aiven) && (key in after ==> after[key] == aiven[key])
  {
    var kept := Written(section, os, aiven, variant);
    assert key !in Filtered(os) && key !in kept;
    UpdateForm(section, os, aiven, variant);
  }

  /** The target maps the manager, the source does not, and the program cannot put it there. */
  predicate LosesManager(os: Entry, aiven: Entry, variant: Variant) {
    && IncludesManager(aiven) && !IncludesManager(os)
    && (variant == AsWritten || ("users" in os && !os["users"].JList?))
  }

  /** What makes an update of one entry raise an exception. */
  predicate UpdateFails(section: string, os: Entry, aiven: Entry, variant: Variant) {
    || aiven == map[]
    || (section == "rolesmapping" && (!SearchableUsers(aiven) || LosesManager(os, aiven, variant)))
  }

  /**
   An update fails exactly on an empty target entry and, for role mappings, when the target's
   users cannot be searched or the manager is mapped there and cannot be kept.
   */
  lemma {:induction false} UpdateFailsIff(section: string, os: Entry, aiven: Entry, variant: Variant)
    ensures UpdateEntry(section, os, aiven, variant).Err? <==> UpdateFails(section, os, aiven, variant)
  {
    assert Get(Filtered(aiven), "users") == Get(aiven, "users") && ("users" in Filtered(aiven) <==> "users" in aiven);
    assert WithUsers(Filtered(os))["users"] == if "users" in os then os["users"] else JList([]);
  }
}
