/** Repair of node credentials (`replaceInvalidCredentials`, packages/cli/src/workflow-helpers.ts).

    The source walks over all nodes, looks credentials up in the database and keeps two caches, one
    by name and one by id.  `RepairNodes` is that walk on values; `ReplaceInvalidCredentials` is the
    loop that rewrites the nodes in place. */
module CredentialRepair {
  import opened Collections
  import opened Wrappers

  // ----- Data -----

  type CredentialType = string

  /** A row of the credentials table. */
  datatype Row = Row(id: string, name: string, ctype: CredentialType)

  /** A node's entry for one credential type: skipped (`null` or `undefined`), the old style (a bare
      name, or details without an id), or details with an id. */
  datatype Entry = Absent | Name(s: string) | Details(id: Option<string>, name: string)

  datatype Slot = Slot(ctype: CredentialType, entry: Entry)

  /** `credentials` lists the entries in the order the object enumerates them. */
  datatype Node = Node(disabled: bool, credentials: Option<seq<Slot>>)

  /** The table; ids identify rows. */
  type Table = seq<Row>

  ghost predicate WellFormed(db: Table) {
    forall i, j :: 0 <= i < j < |db| ==> db[i].id != db[j].id
  }

  function FindBy(db: Table, name: string, ctype: CredentialType): seq<Row> {
    if db == [] then []
    else (if db[0].name == name && db[0].ctype == ctype then [db[0]] else []) + FindBy(db[1..], name, ctype)
  }

  function FindOneBy(db: Table, id: string, ctype: CredentialType): Option<Row> {
    if db == [] then None
    else if db[0].id == id && db[0].ctype == ctype then Some(db[0])
    else FindOneBy(db[1..], id, ctype)
  }

  function DetailsOf(row: Row): Entry {
    Details(Some(row.id), row.name)
  }

  predicate IsOldStyle(e: Entry) {
    e.Name? || (e.Details? && e.id == None)
  }

  function NameOf(e: Entry): string
    requires !e.Absent?
  {
    if e.Name? then e.s else e.name
  }

  // ----- The walk with its caches -----

  /** `byName` and `byId` are the two caches; `nameLookups` records the database queries made for
      old-style entries. */
  type Key = (CredentialType, string)

  datatype Caches = Caches(byName: map<Key, Entry>,
                           byId: map<Key, Entry>,
                           nameLookups: seq<Key>)

  const FRESH := Caches(map[], map[], [])

  function RepairOldStyle(db: Table, c: Caches, slot: Slot): (Caches, Slot)
    requires IsOldStyle(slot.entry)
  {
    var name := NameOf(slot.entry);
    var key := (slot.ctype, name);
    if key in c.byName then (c, slot.(entry := c.byName[key]))
    else
      var rows := FindBy(db, name, slot.ctype);
      var c' := c.(nameLookups := c.nameLookups + [key]);
      if |rows| == 1 then
        var found := DetailsOf(rows[0]);
        (c'.(byName := c.byName[key := found]), slot.(entry := found))
      else
        (c'.(byName := c.byName[key := Details(None, name)]), slot)
  }

  function RepairWithId(db: Table, c: Caches, slot: Slot): (Caches, Slot)
    requires slot.entry.Details? && slot.entry.id.Some?
  {
    var key := (slot.ctype, slot.entry.id.value);
    if key in c.byId then (c, slot.(entry := c.byId[key]))
    else
      var row := FindOneBy(db, slot.entry.id.value, slot.ctype);
      if row.Some? then
        var found := DetailsOf(row.value);
        (c.(byId := c.byId[key := found]), slot.(entry := found))
      else
        var rows := FindBy(db, slot.entry.name, slot.ctype);
        if |rows| == 1 then
          var found := DetailsOf(rows[0]);
          (c.(byId := c.byId[(slot.ctype, rows[0].id) := found]), slot.(entry := found))
        else
          (c.(byId := c.byId[key := slot.entry]), slot)
  }

  function RepairSlot(db: Table, c: Caches, slot: Slot): (Caches, Slot) {
    if slot.entry.Absent? then (c, slot)
    else if IsOldStyle(slot.entry) then RepairOldStyle(db, c, slot)
    else RepairWithId(db, c, slot)
  }

  function RepairSlots(db: Table, c: Caches, slots: seq<Slot>): (r: (Caches, seq<Slot>))
    ensures |r.1| == |slots|
    decreases |slots|
  {
    if slots == [] then (c, [])
    else
      var (c', slot) := RepairSlot(db, c, slots[0]);
      var (c'', rest) := RepairSlots(db, c', slots[1..]);
      (c'', [slot] + rest)
  }

  predicate IsSkipped(node: Node) {
    node.credentials.None? || node.disabled
  }

  function RepairNode(db: Table, c: Caches, node: Node): (Caches, Node) {
    if IsSkipped(node) then (c, node)
    else
      var (c', slots) := RepairSlots(db, c, node.credentials.value);
      (c', node.(credentials := Some(slots)))
  }

  function RepairNodes(db: Table, c: Caches, nodes: seq<Node>): (r: (Caches, seq<Node>))
    ensures |r.1| == |nodes|
    decreases |nodes|
  {
    if nodes == [] then (c, [])
    else
      var (c', node) := RepairNode(db, c, nodes[0]);
      var (c'', rest) := RepairNodes(db, c', nodes[1..]);
      (c'', [node] + rest)
  }

  // ----- The loops of the source -----

  lemma NextNode(db: Table, c: Caches, before: seq<Node>, nodes: seq<Node>)
    requires nodes != []
    ensures var (c', node) := RepairNode(db, c, nodes[0]);
      before + RepairNodes(db, c, nodes).1 == before + [node] + RepairNodes(db, c', nodes[1..]).1
  {
  }

  method ReplaceInvalidCredentials(db: Table, nodes: array<Node>)
    modifies nodes
    ensures nodes[..] == RepairNodes(db, FRESH, old(nodes[..])).1
  {
    var c := FRESH;
    ghost var was := nodes[..];
    ghost var all := RepairNodes(db, FRESH, was).1;
    var i := 0;
    assert [] + all == all && was[0..] == was;
    while i < nodes.Length
      invariant 0 <= i <= nodes.Length
      invariant nodes[i..] == was[i..]
      invariant nodes[..i] + RepairNodes(db, c, was[i..]).1 == all
    {
      NextNode(db, c, nodes[..i], was[i..]);
      ghost var before := nodes[..i];
      if nodes[i].credentials.Some? && !nodes[i].disabled {
        var c', slots := RepairEntries(db, c, nodes[i].credentials.value);
        nodes[i] := nodes[i].(credentials := Some(slots));
        c := c';
      }
      assert was[i..][1..] == was[i + 1..] && nodes[..i + 1] == before + [nodes[i]];
      i := i + 1;
    }
  }

  /** The inner loop, over the entries of one node. */
  method RepairEntries(db: Table, c: Caches, credentials: seq<Slot>) returns (c': Caches, slots: seq<Slot>)
    ensures (c', slots) == RepairSlots(db, c, credentials)
  {
    c', slots := c, credentials;
    var j := 0;
    assert credentials[..0] + RepairSlots(db, c, credentials[0..]).1 == RepairSlots(db, c, credentials).1;
    while j < |credentials|
      invariant 0 <= j <= |credentials| == |slots|
      invariant slots[j..] == credentials[j..]
      invariant RepairSlots(db, c', credentials[j..]).0 == RepairSlots(db, c, credentials).0
      invariant slots[..j] + RepairSlots(db, c', credentials[j..]).1 == RepairSlots(db, c, credentials).1
    {
      ghost var before := slots[..j];
      var next, slot := RepairEntry(db, c', credentials[j]);
      slots := slots[j := slot];
      c' := next;
      assert credentials[j..] == [credentials[j]] + credentials[j + 1..];
      assert slots[..j + 1] == before + [slot];
      j := j + 1;
    }
    assert credentials[j..] == [] && slots[..j] + [] == slots;
    assert RepairSlots(db, c', credentials[j..]) == (c', []);
  }

  /** The body of the inner loop: the source's branches and cache updates, one by one. */
  method RepairEntry(db: Table, c: Caches, slot: Slot) returns (c': Caches, slot': Slot)
    ensures (c', slot') == RepairSlot(db, c, slot)
  {
    var byName, byId, nameLookups := c.byName, c.byId, c.nameLookups;
    c', slot' := c, slot;
    if slot.entry.Absent? { return; }
    if IsOldStyle(slot.entry) {
      var name := NameOf(slot.entry);
      if (slot.ctype, name) !in byName {
        var credentials := FindBy(db, name, slot.ctype);
        nameLookups := nameLookups + [(slot.ctype, name)];
        if |credentials| == 1 {
          byName := byName[(slot.ctype, name) := Details(Some(credentials[0].id), credentials[0].name)];
          slot' := slot.(entry := byName[(slot.ctype, name)]);
          c' := Caches(byName, byId, nameLookups);
          return;
        }
        byName := byName[(slot.ctype, name) := Details(None, name)];
      } else {
        slot' := slot.(entry := byName[(slot.ctype, name)]);
      }
      c' := Caches(byName, byId, nameLookups);
      return;
    }
    var id := slot.entry.id.value;
    if (slot.ctype, id) !in byId {
      var credentials := FindOneBy(db, id, slot.ctype);
      if credentials.Some? {
        byId := byId[(slot.ctype, id) := Details(Some(credentials.value.id), credentials.value.name)];
        slot' := slot.(entry := byId[(slot.ctype, id)]);
        c' := Caches(byName, byId, nameLookups);
        return;
      }
      var credsByName := FindBy(db, slot.entry.name, slot.ctype);
      if |credsByName| == 1 {
        byId := byId[(slot.ctype, credsByName[0].id) := Details(Some(credsByName[0].id), credsByName[0].name)];
        slot' := slot.(entry := byId[(slot.ctype, credsByName[0].id)]);
        c' := Caches(byName, byId, nameLookups);
        return;
      }
      byId := byId[(slot.ctype, id) := slot.entry];
      c' := Caches(byName, byId, nameLookups);
      return;
    }
    slot' := slot.(entry := byId[(slot.ctype, id)]);
  }

  // ----- Lookups -----

  predicate IsKnown(db: Table, ctype: CredentialType, id: string) {
    FindOneBy(db, id, ctype).Some?
  }

  predicate IsUnique(db: Table, ctype: CredentialType, name: string) {
    |FindBy(db, name, ctype)| == 1
  }

  lemma {:induction false} FindByFinds(db: Table, name: string, ctype: CredentialType, row: Row)
    ensures row in FindBy(db, name, ctype) <==> row in db && row.name == name && row.ctype == ctype
  {
    if db == [] {
    } else {
      FindByFinds(db[1..], name, ctype, row);
      assert row in db <==> row == db[0] || row in db[1..];
    }
  }

  lemma {:induction false} FindOneByFinds(db: Table, id: string, ctype: CredentialType, row: Row)
    requires WellFormed(db)
    ensures FindOneBy(db, id, ctype) == Some(row) <==> row in db && row.id == id && row.ctype == ctype
  {
    if db == [] {
    } else {
      var rest := db[1..];
      assert forall i | 0 <= i < |rest| :: rest[i] == db[i + 1];
      assert WellFormed(rest);
      FindOneByFinds(rest, id, ctype, row);
      assert row in db <==> row == db[0] || row in rest;
    }
  }

  /** A row found by its unique name is the row found by its id. */
  lemma UniqueRowIsKnown(db: Table, name: string, ctype: CredentialType)
    requires WellFormed(db) && IsUnique(db, ctype, name)
    ensures var row := FindBy(db, name, ctype)[0];
      row.name == name && row.ctype == ctype && FindOneBy(db, row.id, ctype) == Some(row)
  {
    var row := FindBy(db, name, ctype)[0];
    FindByFinds(db, name, ctype, row);
    FindOneByFinds(db, row.id, ctype, row);
  }

  lemma KnownRow(db: Table, id: string, ctype: CredentialType)
    requires WellFormed(db) && IsKnown(db, ctype, id)
    ensures FindOneBy(db, id, ctype).value.id == id
  {
    FindOneByFinds(db, id, ctype, FindOneBy(db, id, ctype).value);
  }

  // ----- What the caches hold -----

  ghost predicate NameCacheOk(db: Table, c: Caches) {
    forall key | key in c.byName ::
      c.byName[key] == if IsUnique(db, key.0, key.1) then DetailsOf(FindBy(db, key.1, key.0)[0])
                       else Details(None, key.1)
  }

  /** A known id maps to its row; an unknown one to an entry that has no unique name either. */
  ghost predicate IdCacheOk(db: Table, c: Caches) {
    forall key | key in c.byId ::
      if IsKnown(db, key.0, key.1) then c.byId[key] == DetailsOf(FindOneBy(db, key.1, key.0).value)
      else c.byId[key].Details? && c.byId[key].id == Some(key.1) && !IsUnique(db, key.0, c.byId[key].name)
  }

  /** Every name in the cache was looked up once. */
  ghost predicate LookupsOk(c: Caches) {
    Distinct(c.nameLookups) && forall key :: key in c.nameLookups <==> key in c.byName
  }

  ghost predicate CachesOk(db: Table, c: Caches) {
    NameCacheOk(db, c) && IdCacheOk(db, c) && LookupsOk(c)
  }

  lemma StepKeepsCaches(db: Table, c: Caches, slot: Slot)
    requires WellFormed(db) && CachesOk(db, c)
    ensures CachesOk(db, RepairSlot(db, c, slot).0)
  {
    if !slot.entry.Absent? {
      var name := NameOf(slot.entry);
      if IsUnique(db, slot.ctype, name) { UniqueRowIsKnown(db, name, slot.ctype); }
      if slot.entry.Details? && slot.entry.id.Some? && IsKnown(db, slot.ctype, slot.entry.id.value) {
        KnownRow(db, slot.entry.id.value, slot.ctype);
      }
      var c' := RepairSlot(db, c, slot).0;
      assert c'.nameLookups == c.nameLookups || c'.nameLookups == c.nameLookups + [(slot.ctype, name)];
    }
  }

  // ----- Idempotence -----

  /** Two name caches agree on the names that the table does not settle. */
  ghost predicate NamesRelated(db: Table, names1: map<Key, Entry>, names2: map<Key, Entry>) {
    forall key: Key | !IsUnique(db, key.0, key.1) :: key in names1 <==> key in names2
  }

  /** Two id caches agree on the ids that the table does not have. */
  ghost predicate IdsRelated(db: Table, ids1: map<Key, Entry>, ids2: map<Key, Entry>) {
    forall key: Key | !IsKnown(db, key.0, key.1) ::
      (key in ids1 <==> key in ids2) && (key in ids1 ==> ids1[key] == ids2[key])
  }

  /** The caches of a first run and of a second run over its output. */
  ghost predicate Related(db: Table, c1: Caches, c2: Caches) {
    && CachesOk(db, c1) && CachesOk(db, c2)
    && NamesRelated(db, c1.byName, c2.byName) && IdsRelated(db, c1.byId, c2.byId)
  }

  lemma NameSettled(db: Table, names1: map<Key, Entry>, names2: map<Key, Entry>, key: Key, e: Entry)
    requires NamesRelated(db, names1, names2) && IsUnique(db, key.0, key.1)
    ensures NamesRelated(db, names1[key := e], names2)
  {
  }

  lemma IdSettled(db: Table, ids1: map<Key, Entry>, ids2: map<Key, Entry>, key: Key, e: Entry)
    requires IdsRelated(db, ids1, ids2) && IsKnown(db, key.0, key.1)
    ensures IdsRelated(db, ids1[key := e], ids2) && IdsRelated(db, ids1, ids2[key := e])
  {
  }

  ghost predicate StableStep(db: Table, c1: Caches, c2: Caches, slot: Slot) {
    var (c1', once) := RepairSlot(db, c1, slot);
    var (c2', twice) := RepairSlot(db, c2, once);
    twice == once && Related(db, c1', c2')
  }

  lemma UniqueNameIsStable(db: Table, c1: Caches, c2: Caches, slot: Slot)
    requires WellFormed(db) && Related(db, c1, c2)
    requires IsOldStyle(slot.entry) && IsUnique(db, slot.ctype, NameOf(slot.entry))
    ensures StableStep(db, c1, c2, slot)
  {
    var name := NameOf(slot.entry);
    var row := FindBy(db, name, slot.ctype)[0];
    UniqueRowIsKnown(db, name, slot.ctype);
    var (c1', once) := RepairOldStyle(db, c1, slot);
    assert once == slot.(entry := DetailsOf(row));
    assert c1'.byId == c1.byId && c1'.byName == c1.byName[(slot.ctype, name) := DetailsOf(row)];
    NameSettled(db, c1.byName, c2.byName, (slot.ctype, name), DetailsOf(row));
    StepKeepsCaches(db, c1, slot);
    KnownIsStable(db, c2, once, row);
    IdSettled(db, c1.byId, c2.byId, (slot.ctype, row.id), DetailsOf(row));
  }

  /** An entry that names a row by its id and name stays. */
  lemma KnownIsStable(db: Table, c: Caches, slot: Slot, row: Row)
    requires WellFormed(db) && CachesOk(db, c)
    requires slot.entry == DetailsOf(row) && FindOneBy(db, row.id, slot.ctype) == Some(row)
    ensures var (c', repaired) := RepairSlot(db, c, slot);
      && repaired == slot && CachesOk(db, c')
      && c'.byName == c.byName && c'.byId == c.byId[(slot.ctype, row.id) := DetailsOf(row)]
  {
    StepKeepsCaches(db, c, slot);
    var key := (slot.ctype, row.id);
    assert key in c.byId ==> c.byId[key] == DetailsOf(row);
    assert key in c.byId ==> c.byId == c.byId[key := DetailsOf(row)];
  }

  lemma OtherNameIsStable(db: Table, c1: Caches, c2: Caches, slot: Slot)
    requires WellFormed(db) && Related(db, c1, c2)
    requires IsOldStyle(slot.entry) && !IsUnique(db, slot.ctype, NameOf(slot.entry))
    ensures StableStep(db, c1, c2, slot)
  {
    var name := NameOf(slot.entry);
    var key, invalid := (slot.ctype, name), Details(None, name);
    var (c1', once) := RepairOldStyle(db, c1, slot);
    assert once == if key in c1.byName then slot.(entry := invalid) else slot;
    assert c1'.byId == c1.byId && c1'.byName == c1.byName[key := invalid];
    var (c2', twice) := RepairOldStyle(db, c2, once);
    assert twice == once;
    assert c2'.byId == c2.byId && c2'.byName == c2.byName[key := invalid];
    StepKeepsCaches(db, c1, slot);
    StepKeepsCaches(db, c2, once);
  }

  lemma WithIdIsStable(db: Table, c1: Caches, c2: Caches, slot: Slot)
    requires WellFormed(db) && Related(db, c1, c2) && slot.entry.Details? && slot.entry.id.Some?
    ensures StableStep(db, c1, c2, slot)
  {
    var id, name := slot.entry.id.value, slot.entry.name;
    if IsKnown(db, slot.ctype, id) {
      var row := FindOneBy(db, id, slot.ctype).value;
      KnownRow(db, id, slot.ctype);
      FoundIsStable(db, c1, c2, slot, row);
    } else if (slot.ctype, id) in c1.byId || !IsUnique(db, slot.ctype, name) {
      UnknownIdIsStable(db, c1, c2, slot);
    } else {
      UniqueRowIsKnown(db, name, slot.ctype);
      FoundIsStable(db, c1, c2, slot, FindBy(db, name, slot.ctype)[0]);
    }
  }

  /** Resolved to a row, by id or by name: the second time the row is known by its id. */
  lemma FoundIsStable(db: Table, c1: Caches, c2: Caches, slot: Slot, row: Row)
    requires WellFormed(db) && Related(db, c1, c2) && slot.entry.Details? && slot.entry.id.Some?
    requires FindOneBy(db, row.id, slot.ctype) == Some(row)
    requires if IsKnown(db, slot.ctype, slot.entry.id.value) then row.id == slot.entry.id.value
             else (slot.ctype, slot.entry.id.value) !in c1.byId && FindBy(db, slot.entry.name, slot.ctype) == [row]
    ensures StableStep(db, c1, c2, slot)
  {
    var (c1', once) := RepairSlot(db, c1, slot);
    var key := (slot.ctype, row.id);
    StepKeepsCaches(db, c1, slot);
    assert key in c1.byId ==> c1.byId[key] == DetailsOf(row);
    assert key in c1.byId ==> c1.byId == c1.byId[key := DetailsOf(row)];
    assert once == slot.(entry := DetailsOf(row));
    assert c1'.byName == c1.byName && c1'.byId == c1.byId[key := DetailsOf(row)];
    KnownIsStable(db, c2, once, row);
    IdSettled(db, c1.byId, c2.byId, key, DetailsOf(row));
    IdSettled(db, c1'.byId, c2.byId, key, DetailsOf(row));
  }

  /** Not resolved: the first run leaves in both id caches the entry that it wrote. */
  lemma UnknownIdIsStable(db: Table, c1: Caches, c2: Caches, slot: Slot)
    requires WellFormed(db) && Related(db, c1, c2) && slot.entry.Details? && slot.entry.id.Some?
    requires !IsKnown(db, slot.ctype, slot.entry.id.value)
    requires (slot.ctype, slot.entry.id.value) in c1.byId || !IsUnique(db, slot.ctype, slot.entry.name)
    ensures StableStep(db, c1, c2, slot)
  {
    var key := (slot.ctype, slot.entry.id.value);
    var (c1', once) := RepairSlot(db, c1, slot);
    StepKeepsCaches(db, c1, slot);
    assert key in c1.byId ==> once.entry == c1.byId[key] && c1' == c1;
    assert key !in c1.byId ==> once == slot && c1' == c1.(byId := c1.byId[key := slot.entry]);
    var (c2', twice) := RepairSlot(db, c2, once);
    StepKeepsCaches(db, c2, once);
    assert key in c1.byId ==> twice == once && c2' == c2;
    assert key !in c1.byId ==> twice == once && c2' == c2.(byId := c2.byId[key := slot.entry]);
  }

  lemma StepIsStable(db: Table, c1: Caches, c2: Caches, slot: Slot)
    requires WellFormed(db) && Related(db, c1, c2)
    ensures StableStep(db, c1, c2, slot)
  {
    if slot.entry.Absent? {
    } else if IsOldStyle(slot.entry) {
      if IsUnique(db, slot.ctype, NameOf(slot.entry)) {
        UniqueNameIsStable(db, c1, c2, slot);
      } else {
        OtherNameIsStable(db, c1, c2, slot);
      }
    } else {
      WithIdIsStable(db, c1, c2, slot);
    }
  }

  lemma {:induction false} SlotsAreStable(db: Table, c1: Caches, c2: Caches, slots: seq<Slot>)
    requires WellFormed(db) && Related(db, c1, c2)
    ensures var (c1', once) := RepairSlots(db, c1, slots);
      var (c2', twice) := RepairSlots(db, c2, once);
      twice == once && Related(db, c1', c2')
    decreases |slots|
  {
    if slots == [] {
    } else {
      StepIsStable(db, c1, c2, slots[0]);
      var (c1', once) := RepairSlot(db, c1, slots[0]);
      var (c2', _) := RepairSlot(db, c2, once);
      SlotsAreStable(db, c1', c2', slots[1..]);
      assert RepairSlots(db, c1, slots).1[1..] == RepairSlots(db, c1', slots[1..]).1;
    }
  }

  lemma {:induction false} NodesAreStable(db: Table, c1: Caches, c2: Caches, nodes: seq<Node>)
    requires WellFormed(db) && Related(db, c1, c2)
    ensures var once := RepairNodes(db, c1, nodes).1;
      RepairNodes(db, c2, once).1 == once
    decreases |nodes|
  {
    if nodes == [] {
    } else {
      var node := nodes[0];
      if !IsSkipped(node) { SlotsAreStable(db, c1, c2, node.credentials.value); }
      var (c1', once) := RepairNode(db, c1, node);
      var (c2', twice) := RepairNode(db, c2, once);
      NodesAreStable(db, c1', c2', nodes[1..]);
      assert RepairNodes(db, c1, nodes).1[1..] == RepairNodes(db, c1', nodes[1..]).1;
    }
  }

  /** Repairing a repaired workflow, with fresh caches and the same table, changes no node. */
  lemma RepairIsIdempotent(db: Table, nodes: seq<Node>)
    requires WellFormed(db)
    ensures var once := RepairNodes(db, FRESH, nodes).1;
      RepairNodes(db, FRESH, once).1 == once
  {
    NodesAreStable(db, FRESH, FRESH, nodes);
  }

  // ----- The entries of a workflow, in the order the walk meets them -----

  function Slots(nodes: seq<Node>): seq<Slot> {
    if nodes == [] then []
    else (if IsSkipped(nodes[0]) then [] else nodes[0].credentials.value) + Slots(nodes[1..])
  }

  lemma {:induction false} RepairSlotsConcat(db: Table, c: Caches, a: seq<Slot>, b: seq<Slot>)
    ensures var (c', first) := RepairSlots(db, c, a);
      var (c'', second) := RepairSlots(db, c', b);
      RepairSlots(db, c, a + b) == (c'', first + second)
    decreases |a|
  {
    if a == [] {
      assert a + b == b && [] + RepairSlots(db, c, b).1 == RepairSlots(db, c, b).1;
    } else {
      assert (a + b)[1..] == a[1..] + b;
      var (c1, x) := RepairSlot(db, c, a[0]);
      RepairSlotsConcat(db, c1, a[1..], b);
      var (c2, rest) := RepairSlots(db, c1, a[1..]);
      var second := RepairSlots(db, c2, b).1;
      assert [x] + (rest + second) == ([x] + rest) + second;
    }
  }

  /** The walk over the nodes is the walk over their entries. */
  lemma {:induction false} NodesAreSlots(db: Table, c: Caches, nodes: seq<Node>)
    ensures var (c', repaired) := RepairNodes(db, c, nodes);
      (c', Slots(repaired)) == RepairSlots(db, c, Slots(nodes))
    decreases |nodes|
  {
    if nodes == [] {
    } else {
      var first := if IsSkipped(nodes[0]) then [] else nodes[0].credentials.value;
      var (c', node) := RepairNode(db, c, nodes[0]);
      NodesAreSlots(db, c', nodes[1..]);
      RepairSlotsConcat(db, c, first, Slots(nodes[1..]));
      var repaired := RepairNodes(db, c, nodes).1;
      assert repaired[1..] == RepairNodes(db, c', nodes[1..]).1;
    }
  }

  lemma {:induction false} TypesStay(db: Table, c: Caches, slots: seq<Slot>, k: nat)
    requires k < |slots|
    ensures RepairSlots(db, c, slots).1[k].ctype == slots[k].ctype
    ensures slots[k].entry.Absent? ==> RepairSlots(db, c, slots).1[k] == slots[k]
    decreases k
  {
    if k > 0 {
      TypesStay(db, RepairSlot(db, c, slots[0]).0, slots[1..], k - 1);
    }
  }

  /** Only entries change: the nodes, their order, their flags and their credential types stay; a
      disabled node keeps its entries, and an absent entry stays absent. */
  lemma {:induction false} OnlyEntriesChange(db: Table, c: Caches, nodes: seq<Node>, i: nat)
    requires i < |nodes|
    ensures var node, repaired := nodes[i], RepairNodes(db, c, nodes).1[i];
      && repaired.disabled == node.disabled
      && (node.disabled || node.credentials.None? ==> repaired == node)
      && (!node.disabled && node.credentials.Some? ==>
            && repaired.credentials.Some?
            && |repaired.credentials.value| == |node.credentials.value|
            && forall k | 0 <= k < |node.credentials.value| ::
                 && repaired.credentials.value[k].ctype == node.credentials.value[k].ctype
                 && (node.credentials.value[k].entry.Absent? ==> repaired.credentials.value[k].entry.Absent?))
    decreases i
  {
    if i > 0 {
      OnlyEntriesChange(db, RepairNode(db, c, nodes[0]).0, nodes[1..], i - 1);
    } else if !IsSkipped(nodes[0]) {
      var slots := nodes[0].credentials.value;
      forall k | 0 <= k < |slots|
        ensures RepairSlots(db, c, slots).1[k].ctype == slots[k].ctype
        ensures slots[k].entry.Absent? ==> RepairSlots(db, c, slots).1[k] == slots[k]
      {
        TypesStay(db, c, slots, k);
      }
    }
  }

  /** The entries that the walk meets are those of the enabled nodes. */
  lemma {:induction false} SlotsAreTheEntries(nodes: seq<Node>, slot: Slot)
    ensures slot in Slots(nodes) <==>
      exists i :: 0 <= i < |nodes| && !nodes[i].disabled && nodes[i].credentials.Some?
               && slot in nodes[i].credentials.value
    decreases |nodes|
  {
    if nodes == [] {
    } else {
      SlotsAreTheEntries(nodes[1..], slot);
      var first := if IsSkipped(nodes[0]) then [] else nodes[0].credentials.value;
      assert slot in Slots(nodes) <==> slot in first || slot in Slots(nodes[1..]);
      if slot in Slots(nodes[1..]) {
        var i :| 0 <= i < |nodes[1..]| && !nodes[1..][i].disabled && nodes[1..][i].credentials.Some?
              && slot in nodes[1..][i].credentials.value;
        assert nodes[i + 1] == nodes[1..][i];
      }
      forall i | 0 < i < |nodes| ensures nodes[1..][i - 1] == nodes[i] {}
    }
  }

  // ----- What an entry becomes, in terms of the table -----

  /** Row `i` is the only one of the type with this name. */
  ghost predicate OneMatch(db: Table, name: string, ctype: CredentialType, i: nat) {
    && i < |db| && db[i].name == name && db[i].ctype == ctype
    && forall j | 0 <= j < |db| && db[j].name == name && db[j].ctype == ctype :: j == i
  }

  lemma {:induction false} NoMatchIsFound(db: Table, name: string, ctype: CredentialType)
    ensures FindBy(db, name, ctype) == [] <==> forall j | 0 <= j < |db| :: !(db[j].name == name && db[j].ctype == ctype)
    decreases |db|
  {
    if db == [] {
    } else {
      NoMatchIsFound(db[1..], name, ctype);
      assert forall j | 0 < j < |db| :: db[j] == db[1..][j - 1];
      assert forall j | 0 <= j < |db[1..]| :: db[1..][j] == db[j + 1];
    }
  }

  lemma {:induction false} OneMatchIsFound(db: Table, name: string, ctype: CredentialType, i: nat)
    requires OneMatch(db, name, ctype, i)
    ensures FindBy(db, name, ctype) == [db[i]]
    decreases |db|
  {
    var rest := db[1..];
    assert forall j | 0 <= j < |rest| :: rest[j] == db[j + 1];
    if i == 0 {
      NoMatchIsFound(rest, name, ctype);
    } else {
      assert OneMatch(rest, name, ctype, i - 1);
      OneMatchIsFound(rest, name, ctype, i - 1);
    }
  }

  lemma {:induction false} UniqueIsOneMatch(db: Table, name: string, ctype: CredentialType) returns (i: nat)
    requires IsUnique(db, ctype, name)
    ensures OneMatch(db, name, ctype, i)
    decreases |db|
  {
    var rest := db[1..];
    assert forall j | 0 < j < |db| :: db[j] == rest[j - 1];
    if db[0].name == name && db[0].ctype == ctype {
      NoMatchIsFound(rest, name, ctype);
      i := 0;
    } else {
      i := UniqueIsOneMatch(rest, name, ctype);
      i := i + 1;
    }
  }

  /** A name is unique for its type exactly if one row, and only one, matches. */
  lemma UniqueIffOneMatch(db: Table, name: string, ctype: CredentialType)
    ensures IsUnique(db, ctype, name) <==> exists i :: OneMatch(db, name, ctype, i)
  {
    if IsUnique(db, ctype, name) { var i := UniqueIsOneMatch(db, name, ctype); }
    if i: nat :| OneMatch(db, name, ctype, i) { OneMatchIsFound(db, name, ctype, i); }
  }

  /** An entry with the id of a row of its type gets the id and the name of that row. */
  ghost predicate KnownBecomes(db: Table, slot: Slot, entry: Entry) {
    forall row | row in db && row.ctype == slot.ctype && slot.entry.Details? && slot.entry.id == Some(row.id) ::
      entry == Details(Some(row.id), row.name)
  }

  /** An old-style entry gets the id of the only row with its name, which it keeps; without such a row it
      stays as it was, up to writing a bare name as details without an id. */
  ghost predicate OldStyleBecomes(db: Table, slot: Slot, entry: Entry) {
    forall name | slot.entry == Name(name) || slot.entry == Details(None, name) ::
      && (forall i: nat | OneMatch(db, name, slot.ctype, i) :: entry == Details(Some(db[i].id), name))
      && ((forall i: nat :: !OneMatch(db, name, slot.ctype, i)) ==> entry == slot.entry || entry == Details(None, name))
  }

  /** An entry whose id no row of its type has gets the id of the only row with its name; without such a
      row it stays. */
  ghost predicate UnknownBecomes(db: Table, slot: Slot, entry: Entry) {
    forall id, name | slot.entry == Details(Some(id), name)
                    && (forall row | row in db && row.ctype == slot.ctype :: row.id != id) ::
      && (forall i: nat | OneMatch(db, name, slot.ctype, i) :: entry == Details(Some(db[i].id), name))
      && ((forall i: nat :: !OneMatch(db, name, slot.ctype, i)) ==> entry == slot.entry)
  }

  /** What one step makes of an entry, whatever the caches hold; of an unknown id, if it is not cached. */
  lemma EntryBecomes(db: Table, c: Caches, slot: Slot)
    requires WellFormed(db) && CachesOk(db, c)
    ensures var entry := RepairSlot(db, c, slot).1.entry;
      && KnownBecomes(db, slot, entry) && OldStyleBecomes(db, slot, entry)
      && (slot.entry.Details? && slot.entry.id.Some? && (slot.ctype, slot.entry.id.value) !in c.byId ==>
            UnknownBecomes(db, slot, entry))
      && (slot.entry.Absent? ==> entry.Absent?)
  {
    KnownEntryBecomes(db, c, slot);
    OldStyleEntryBecomes(db, c, slot);
    if slot.entry.Details? && slot.entry.id.Some? && (slot.ctype, slot.entry.id.value) !in c.byId {
      UnknownEntryBecomes(db, c, slot);
    }
  }

  lemma KnownEntryBecomes(db: Table, c: Caches, slot: Slot)
    requires WellFormed(db) && CachesOk(db, c)
    ensures KnownBecomes(db, slot, RepairSlot(db, c, slot).1.entry)
  {
    forall row | row in db && row.ctype == slot.ctype && slot.entry.Details? && slot.entry.id == Some(row.id)
      ensures RepairSlot(db, c, slot).1.entry == Details(Some(row.id), row.name)
    {
      FindOneByFinds(db, row.id, slot.ctype, row);
      assert (slot.ctype, row.id) in c.byId ==> c.byId[(slot.ctype, row.id)] == DetailsOf(row);
    }
  }

  lemma OldStyleEntryBecomes(db: Table, c: Caches, slot: Slot)
    requires CachesOk(db, c)
    ensures OldStyleBecomes(db, slot, RepairSlot(db, c, slot).1.entry)
  {
    forall name | slot.entry == Name(name) || slot.entry == Details(None, name)
      ensures var entry := RepairSlot(db, c, slot).1.entry;
        && (forall i: nat | OneMatch(db, name, slot.ctype, i) :: entry == Details(Some(db[i].id), name))
        && ((forall i: nat :: !OneMatch(db, name, slot.ctype, i)) ==>
              entry == slot.entry || entry == Details(None, name))
    {
      UniqueIffOneMatch(db, name, slot.ctype);
      forall i: nat | OneMatch(db, name, slot.ctype, i)
        ensures RepairSlot(db, c, slot).1.entry == Details(Some(db[i].id), name)
      {
        OneMatchIsFound(db, name, slot.ctype, i);
      }
    }
  }

  lemma UnknownEntryBecomes(db: Table, c: Caches, slot: Slot)
    requires WellFormed(db) && slot.entry.Details? && slot.entry.id.Some?
    requires (slot.ctype, slot.entry.id.value) !in c.byId
    ensures UnknownBecomes(db, slot, RepairSlot(db, c, slot).1.entry)
  {
    var id, name := slot.entry.id.value, slot.entry.name;
    if forall row | row in db && row.ctype == slot.ctype :: row.id != id {
      if IsKnown(db, slot.ctype, id) {
        FindOneByFinds(db, id, slot.ctype, FindOneBy(db, id, slot.ctype).value);
      }
      UniqueIffOneMatch(db, name, slot.ctype);
      forall i: nat | OneMatch(db, name, slot.ctype, i)
        ensures RepairSlot(db, c, slot).1.entry == Details(Some(db[i].id), name)
      {
        OneMatchIsFound(db, name, slot.ctype, i);
      }
    }
  }

  lemma {:induction false} EntryAt(db: Table, c: Caches, slots: seq<Slot>, k: nat) returns (before: Caches)
    requires WellFormed(db) && CachesOk(db, c) && k < |slots|
    ensures CachesOk(db, before) && RepairSlots(db, c, slots).1[k] == RepairSlot(db, before, slots[k]).1
    decreases k
  {
    if k == 0 {
      before := c;
    } else {
      StepKeepsCaches(db, c, slots[0]);
      before := EntryAt(db, RepairSlot(db, c, slots[0]).0, slots[1..], k - 1);
    }
  }

  lemma {:induction false} SlotsKeepCaches(db: Table, c: Caches, slots: seq<Slot>)
    requires WellFormed(db) && CachesOk(db, c)
    ensures CachesOk(db, RepairSlots(db, c, slots).0)
    decreases |slots|
  {
    if slots == [] {
    } else {
      StepKeepsCaches(db, c, slots[0]);
      SlotsKeepCaches(db, RepairSlot(db, c, slots[0]).0, slots[1..]);
    }
  }

  lemma {:induction false} NodeAt(db: Table, c: Caches, nodes: seq<Node>, i: nat) returns (before: Caches)
    requires WellFormed(db) && CachesOk(db, c) && i < |nodes|
    ensures CachesOk(db, before) && RepairNodes(db, c, nodes).1[i] == RepairNode(db, before, nodes[i]).1
    decreases i
  {
    if i == 0 {
      before := c;
    } else {
      if !IsSkipped(nodes[0]) { SlotsKeepCaches(db, c, nodes[0].credentials.value); }
      before := NodeAt(db, RepairNode(db, c, nodes[0]).0, nodes[1..], i - 1);
    }
  }

  /** What the repair of a workflow makes of the `k`-th entry of its `i`-th node, if that is enabled. */
  lemma RepairedEntry(db: Table, nodes: seq<Node>, i: nat, k: nat)
    requires WellFormed(db) && i < |nodes| && !nodes[i].disabled && nodes[i].credentials.Some?
    requires k < |nodes[i].credentials.value|
    ensures var slot, repaired := nodes[i].credentials.value[k], RepairNodes(db, FRESH, nodes).1[i];
      && repaired.credentials.Some? && k < |repaired.credentials.value|
      && var entry := repaired.credentials.value[k].entry;
         (repaired.credentials.value[k].ctype == slot.ctype
          && KnownBecomes(db, slot, entry) && OldStyleBecomes(db, slot, entry)
          && (slot.entry.Absent? ==> entry.Absent?))
  {
    OnlyEntriesChange(db, FRESH, nodes, i);
    var before := NodeAt(db, FRESH, nodes, i);
    var at := EntryAt(db, before, nodes[i].credentials.value, k);
    EntryBecomes(db, at, nodes[i].credentials.value[k]);
  }

  // ----- Cached repair against direct lookup -----

  /** What the same rules give without any cache. */
  function Direct(db: Table, slot: Slot): Entry {
    if slot.entry.Absent? then slot.entry
    else if slot.entry.Details? && slot.entry.id.Some? && IsKnown(db, slot.ctype, slot.entry.id.value) then
      DetailsOf(FindOneBy(db, slot.entry.id.value, slot.ctype).value)
    else if IsUnique(db, slot.ctype, NameOf(slot.entry)) then
      DetailsOf(FindBy(db, NameOf(slot.entry), slot.ctype)[0])
    else slot.entry
  }

  /** The rules in terms of the table. */
  lemma DirectBecomes(db: Table, slot: Slot)
    requires WellFormed(db)
    ensures var entry := Direct(db, slot);
      && KnownBecomes(db, slot, entry) && OldStyleBecomes(db, slot, entry) && UnknownBecomes(db, slot, entry)
  {
    EntryBecomes(db, FRESH, slot);
    assert Normal(Direct(db, slot)) == Normal(RepairSlot(db, FRESH, slot).1.entry);
  }

  /** A bare name counts as details without an id. */
  function Normal(e: Entry): Entry {
    if e.Name? then Details(None, e.s) else e
  }

  /** An id the table does not have for this type. */
  predicate HasUnknownId(db: Table, slot: Slot) {
    slot.entry.Details? && slot.entry.id.Some? && !IsKnown(db, slot.ctype, slot.entry.id.value)
  }

  /** `earlier` puts an unresolvable entry into the id cache that does not fit `later`. */
  predicate Conflict(db: Table, earlier: Slot, later: Slot) {
    && HasUnknownId(db, earlier) && HasUnknownId(db, later)
    && earlier.ctype == later.ctype && earlier.entry.id == later.entry.id
    && !IsUnique(db, earlier.ctype, earlier.entry.name)
    && earlier.entry.name != later.entry.name
  }

  ghost predicate ConflictFree(db: Table, slots: seq<Slot>) {
    forall i, j :: 0 <= i < j < |slots| ==> !Conflict(db, slots[i], slots[j])
  }

  ghost predicate AgreesWithDirect(db: Table, slots: seq<Slot>, repaired: seq<Slot>)
    requires |slots| == |repaired|
  {
    forall k :: 0 <= k < |slots| ==> Normal(repaired[k].entry) == Normal(Direct(db, slots[k]))
  }

  /** The id cache holds the unresolvable entries among `done`, which all agree. */
  ghost predicate Reflects(db: Table, c: Caches, done: seq<Slot>) {
    && CachesOk(db, c)
    && (forall s | s in done && HasUnknownId(db, s) && !IsUnique(db, s.ctype, s.entry.name) ::
          (s.ctype, s.entry.id.value) in c.byId && c.byId[(s.ctype, s.entry.id.value)] == s.entry)
    && (forall key | key in c.byId && !IsKnown(db, key.0, key.1) :: Slot(key.0, c.byId[key]) in done)
  }

  lemma StepAgreesIff(db: Table, c: Caches, done: seq<Slot>, slot: Slot)
    requires WellFormed(db) && Reflects(db, c, done)
    ensures var (c', repaired) := RepairSlot(db, c, slot);
      var agrees := Normal(repaired.entry) == Normal(Direct(db, slot));
      && (agrees <==> forall s | s in done :: !Conflict(db, s, slot))
      && (agrees ==> Reflects(db, c', done + [slot]))
  {
    StepKeepsCaches(db, c, slot);
    if !slot.entry.Absent? {
      var name := NameOf(slot.entry);
      if IsUnique(db, slot.ctype, name) { UniqueRowIsKnown(db, name, slot.ctype); }
      if HasUnknownId(db, slot) && (slot.ctype, slot.entry.id.value) in c.byId {
        assert Slot(slot.ctype, c.byId[(slot.ctype, slot.entry.id.value)]) in done;
      }
    }
  }

  lemma {:induction false} WalkAgreesIff(db: Table, c: Caches, done: seq<Slot>, slots: seq<Slot>)
    requires WellFormed(db) && Reflects(db, c, done)
    ensures AgreesWithDirect(db, slots, RepairSlots(db, c, slots).1) <==>
      && ConflictFree(db, slots)
      && forall s, j :: s in done && 0 <= j < |slots| ==> !Conflict(db, s, slots[j])
    decreases |slots|
  {
    if slots == [] {
    } else {
      var (c', first) := RepairSlot(db, c, slots[0]);
      var rest := slots[1..];
      var repaired := RepairSlots(db, c, slots).1;
      StepAgreesIff(db, c, done, slots[0]);
      assert repaired[0] == first && repaired[1..] == RepairSlots(db, c', rest).1;
      assert AgreesWithDirect(db, slots, repaired) <==>
        Normal(first.entry) == Normal(Direct(db, slots[0])) && AgreesWithDirect(db, rest, repaired[1..]);
      if Normal(first.entry) == Normal(Direct(db, slots[0])) {
        WalkAgreesIff(db, c', done + [slots[0]], rest);
      }
    }
  }

  /** The caches change no answer exactly when no unresolvable entry is followed, under the same type
      and the same unknown id, by an entry with another name. */
  lemma CachedIsDirectIff(db: Table, nodes: seq<Node>)
    requires WellFormed(db)
    ensures var repaired := RepairNodes(db, FRESH, nodes).1;
      && |Slots(repaired)| == |Slots(nodes)|
      && (AgreesWithDirect(db, Slots(nodes), Slots(repaired)) <==> ConflictFree(db, Slots(nodes)))
  {
    NodesAreSlots(db, FRESH, nodes);
    WalkAgreesIff(db, FRESH, [], Slots(nodes));
  }

  /** In particular they change none when equal unknown ids of a type carry equal names. */
  lemma EqualNamesNeverConflict(db: Table, slots: seq<Slot>)
    requires forall i, j :: 0 <= i < j < |slots| && HasUnknownId(db, slots[i]) && HasUnknownId(db, slots[j])
               && slots[i].ctype == slots[j].ctype && slots[i].entry.id == slots[j].entry.id
               ==> slots[i].entry.name == slots[j].entry.name
    ensures ConflictFree(db, slots)
  {
  }

  // ----- Database lookups -----

  predicate IsLookup(slot: Slot, key: Key) {
    IsOldStyle(slot.entry) && (slot.ctype, NameOf(slot.entry)) == key
  }

  lemma StepLookups(db: Table, c: Caches, slot: Slot, key: Key)
    requires CachesOk(db, c)
    ensures key in RepairSlot(db, c, slot).0.nameLookups <==> key in c.nameLookups || IsLookup(slot, key)
  {
  }

  lemma {:induction false} WalkLookups(db: Table, c: Caches, slots: seq<Slot>, key: Key)
    requires WellFormed(db) && CachesOk(db, c)
    ensures var c' := RepairSlots(db, c, slots).0;
      && CachesOk(db, c')
      && (key in c'.nameLookups <==>
            (key in c.nameLookups || exists s :: s in slots && IsLookup(s, key)))
    decreases |slots|
  {
    if slots == [] {
    } else {
      StepKeepsCaches(db, c, slots[0]);
      StepLookups(db, c, slots[0], key);
      WalkLookups(db, RepairSlot(db, c, slots[0]).0, slots[1..], key);
      assert forall s :: s in slots <==> s == slots[0] || s in slots[1..];
    }
  }

  /** The names looked up for old-style entries are exactly the (type, name) pairs of such entries in
      enabled nodes, each looked up once. */
  lemma OldStyleNamesAreLookedUpOnce(db: Table, nodes: seq<Node>)
    requires WellFormed(db)
    ensures var lookups := RepairNodes(db, FRESH, nodes).0.nameLookups;
      && Distinct(lookups)
      && forall key :: key in lookups <==>
           exists s :: s in Slots(nodes) && IsLookup(s, key)
  {
    NodesAreSlots(db, FRESH, nodes);
    forall key
      ensures key in RepairNodes(db, FRESH, nodes).0.nameLookups <==>
        exists s :: s in Slots(nodes) && IsLookup(s, key)
      ensures Distinct(RepairNodes(db, FRESH, nodes).0.nameLookups)
    {
      WalkLookups(db, FRESH, Slots(nodes), key);
    }
    WalkLookups(db, FRESH, Slots(nodes), ("", ""));
  }
}
