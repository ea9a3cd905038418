/** Health admission from a manager's inventory. */
module NodeHealth {
  import opened Wrappers
  import opened Calendar
  import opened Store

  /** A parsed JSON document. */
  datatype Json =
    | JNull
    | JBool(b: bool)
    | JInt(n: int)
    | JReal(x: real)
    | JText(text: string)
    | JList(items: seq<Json>)
    | JObject(fields: map<string, Json>)

  /** Missing keys read as null. */
  function Get(entry: Json, key: string): Json {
    if entry.JObject? && key in entry.fields then entry.fields[key] else JNull
  }

  datatype Capacity = Capacity(slots: int, models: seq<string>)

  /** The health columns of a registered node. */
  datatype NodeRow = NodeRow(model: string, manager: Option<string>, healthy: bool, lastHealth: Option<Instant>, capacity: Option<Capacity>)

  type NodeTable = map<string, NodeRow>

  // ----- what an inventory means -----

  predicate Named(entry: Json) { Get(entry, "node_id").JText? }

  function Name(entry: Json): string
    requires Named(entry)
  {
    Get(entry, "node_id").text
  }

  predicate AllText(items: seq<Json>) { forall i :: 0 <= i < |items| ==> items[i].JText? }

  predicate ValidCapacity(entry: Json) {
    && Get(entry, "status") == JText("healthy")
    && Get(entry, "available_slots").JInt? && Get(entry, "available_slots").n >= 0
    && Get(entry, "loaded_models").JList? && AllText(Get(entry, "loaded_models").items)
  }

  function CapacityOf(entry: Json): Capacity
    requires ValidCapacity(entry)
  {
    var items := Get(entry, "loaded_models").items;
    Capacity(Get(entry, "available_slots").n, seq(|items|, i requires 0 <= i < |items| => items[i].text))
  }

  /** The entries of an answer, absent when there was no answer or it holds no list of nodes. */
  function Entries(report: Option<Json>): Option<seq<Json>> {
    if report.Some? && Get(report.value, "nodes").JList? then Some(Get(report.value, "nodes").items) else None
  }

  /** Every entry is named, no name occurs twice, and approved entries state a valid capacity. */
  ghost predicate Sound(approved: map<string, string>, entries: multiset<Json>) {
    && (forall e :: e in entries ==> Named(e) && entries[e] == 1)
    && (forall e, f, node :: Lists(entries, e, node) && Lists(entries, f, node) ==> e == f)
    && (forall e, node :: Lists(entries, e, node) && node in approved ==> ValidCapacity(e))
  }

  /** An entry about the node. */
  ghost predicate Lists(entries: multiset<Json>, e: Json, node: string) {
    e in entries && Named(e) && Name(e) == node
  }

  predicate Ready(capacity: Capacity, model: string) { capacity.slots > 0 && model in capacity.models }

  /** An approved node is healthy exactly when the inventory is sound and lists it with free slots
      and its model loaded. */
  ghost predicate Healthy(approved: map<string, string>, entries: Option<multiset<Json>>, node: string)
    requires node in approved
  {
    && entries.Some? && Sound(approved, entries.value)
    && exists e :: Lists(entries.value, e, node) && ValidCapacity(e) && Ready(CapacityOf(e), approved[node])
  }

  function Bag(entries: Option<seq<Json>>): Option<multiset<Json>> {
    if entries.None? then None else Some(multiset(entries.value))
  }

  predicate Holds(entry: Json, key: string, value: Json) { entry.JObject? && key in entry.fields && entry.fields[key] == value }

  /** A valid capacity: the status is healthy, the slots are a whole number that is not negative, and
      the loaded models are a list of texts. */
  lemma CapacityExactly(entry: Json, slots: int, items: seq<Json>)
    requires Holds(entry, "available_slots", JInt(slots)) && Holds(entry, "loaded_models", JList(items))
    ensures ValidCapacity(entry) <==>
              Holds(entry, "status", JText("healthy")) && slots >= 0 && forall i :: 0 <= i < |items| ==> items[i].JText?
    ensures ValidCapacity(entry) ==>
              && CapacityOf(entry).slots == slots && |CapacityOf(entry).models| == |items|
              && (forall i :: 0 <= i < |items| ==> JText(CapacityOf(entry).models[i]) == items[i])
              && forall model :: Ready(CapacityOf(entry), model) <==> slots > 0 && JText(model) in items
  {
    if ValidCapacity(entry) {
      var models := CapacityOf(entry).models;
      forall model ensures model in models <==> JText(model) in items {
        if model in models {
          var i :| 0 <= i < |models| && models[i] == model;
          assert items[i] == JText(model);
        }
        if JText(model) in items {
          var i :| 0 <= i < |items| && items[i] == JText(model);
          assert models[i] == model;
        }
      }
    }
  }

  /** Without such slots and models an entry has no valid capacity. */
  lemma NoCapacity(entry: Json)
    requires forall slots, items :: !(Holds(entry, "available_slots", JInt(slots)) && Holds(entry, "loaded_models", JList(items)))
    ensures !ValidCapacity(entry)
  {
    if ValidCapacity(entry) {
      assert Holds(entry, "available_slots", JInt(Get(entry, "available_slots").n));
      assert Holds(entry, "loaded_models", JList(Get(entry, "loaded_models").items));
    }
  }

  /** Which entry is about which node, and where the entries are. */
  lemma EntriesExactly(report: Json, items: seq<Json>, entry: Json, node: string)
    ensures Entries(Some(report)) == Some(items) <==> Holds(report, "nodes", JList(items))
    ensures Named(entry) && Name(entry) == node <==> Holds(entry, "node_id", JText(node))
    ensures Entries(None) == None
  {
  }

  ghost predicate Once(items: seq<Json>) {
    forall e :: e in multiset(items) ==> multiset(items)[e] == 1
  }

  ghost predicate Distinct(items: seq<Json>) {
    forall i, k :: 0 <= i < k < |items| ==> items[i] != items[k]
  }

  lemma OneMoreEntry(rest: seq<Json>, last: Json)
    ensures Once(rest + [last]) <==> Once(rest) && last !in rest
    ensures Distinct(rest + [last]) <==> Distinct(rest) && last !in rest
  {
    var items := rest + [last];
    assert multiset(items) == multiset(rest) + multiset{last};
    assert last in rest <==> multiset(rest)[last] > 0;
    if Once(items) {
      assert last in multiset(items) && multiset(items)[last] == 1;
      forall e | e in multiset(rest) ensures multiset(rest)[e] == 1 {
        assert e in multiset(items);
      }
    }
    assert items[|rest|] == last && forall i :: 0 <= i < |rest| ==> items[i] == rest[i];
    if last in rest {
      var i :| 0 <= i < |rest| && rest[i] == last;
      assert items[i] == items[|rest|];
    }
  }

  /** Each element occurs once exactly when no two places hold the same. */
  lemma {:induction false} OccursOnce(items: seq<Json>)
    ensures Once(items) <==> Distinct(items)
  {
    if |items| > 0 {
      OccursOnce(items[..|items| - 1]);
      OneMoreEntry(items[..|items| - 1], items[|items| - 1]);
      assert items == items[..|items| - 1] + [items[|items| - 1]];
    }
  }

  /** Every entry of the list names its node, no two name the same, and those about approved nodes
      state a valid capacity. */
  predicate SoundList(approved: map<string, string>, items: seq<Json>) {
    && (forall i :: 0 <= i < |items| ==> Named(items[i]) && (Name(items[i]) in approved ==> ValidCapacity(items[i])))
    && (forall i, k :: 0 <= i < k < |items| ==> Name(items[i]) != Name(items[k]))
  }

  lemma SoundExactly(approved: map<string, string>, items: seq<Json>)
    ensures Sound(approved, multiset(items)) <==> SoundList(approved, items)
  {
    OccursOnce(items);
    if Sound(approved, multiset(items)) {
      forall i, k | 0 <= i < k < |items| ensures Named(items[i]) && Named(items[k]) && Name(items[i]) != Name(items[k]) {
        assert items[i] in multiset(items) && items[k] in multiset(items);
        assert Lists(multiset(items), items[i], Name(items[i])) && Lists(multiset(items), items[k], Name(items[k]));
      }
      forall i | 0 <= i < |items| ensures Named(items[i]) && (Name(items[i]) in approved ==> ValidCapacity(items[i])) {
        assert items[i] in multiset(items);
        assert Lists(multiset(items), items[i], Name(items[i]));
      }
    }
  }

  /** An approved node is healthy exactly when the list is sound and an entry about it has free slots
      and its model among those loaded. */
  lemma HealthyExactly(approved: map<string, string>, items: seq<Json>, node: string)
    requires node in approved
    ensures Healthy(approved, Bag(Some(items)), node)
            <==> SoundList(approved, items)
                 && exists i :: 0 <= i < |items| && Name(items[i]) == node && Ready(CapacityOf(items[i]), approved[node])
  {
    SoundExactly(approved, items);
    if SoundList(approved, items) {
      forall i | 0 <= i < |items| && Name(items[i]) == node ensures Lists(multiset(items), items[i], node) {
        assert items[i] in multiset(items);
      }
    }
  }

  // ----- reading an inventory -----

  datatype Reading = Reading(status: map<string, bool>, capacity: map<string, Capacity>)

  function Unreachable(approved: map<string, string>): Reading {
    Reading(map node | node in approved :: false, map[])
  }

  /** What a reading must be, in terms of the bag of entries alone. */
  ghost predicate ReadsAs(reading: Reading, approved: map<string, string>, entries: Option<multiset<Json>>) {
    && reading.status.Keys == approved.Keys
    && (forall node :: node in approved ==> (reading.status[node] <==> Healthy(approved, entries, node)))
    && (forall node :: node in reading.capacity <==>
          node in approved && entries.Some? && Sound(approved, entries.value) && exists e :: Lists(entries.value, e, node))
    && (forall node, e :: node in reading.capacity && Lists(entries.value, e, node) ==>
          ValidCapacity(e) && reading.capacity[node] == CapacityOf(e))
  }

  /** The loop over the entries, in the order received; the first bad entry discards everything. */
  method ReadInventory(approved: map<string, string>, report: Option<Json>) returns (reading: Reading)
    ensures ReadsAs(reading, approved, Bag(Entries(report)))
  {
    var entries := Entries(report);
    if entries.None? {
      return Unreachable(approved);
    }
    var list := entries.value;
    var status: map<string, bool> := map node | node in approved :: false;
    var capacity: map<string, Capacity> := map[];
    var seen: set<string> := {};
    for k := 0 to |list|
      invariant ReadSoFar(approved, multiset(list[..k]), seen, Reading(status, capacity))
    {
      var entry := list[k];
      assert list[..k + 1] == list[..k] + [entry];
      PrefixIsSound(approved, list, k);
      if !Named(entry) {
        BadEntry(approved, multiset(list[..k]), entry, seen, Reading(status, capacity));
        return Unreachable(approved);
      }
      var node := Name(entry);
      if node in seen {
        BadEntry(approved, multiset(list[..k]), entry, seen, Reading(status, capacity));
        return Unreachable(approved);
      }
      ghost var before := seen;
      seen := seen + {node};
      if node !in approved {
        GoodEntry(approved, multiset(list[..k]), entry, before, Reading(status, capacity));
        continue;
      }
      if !ValidCapacity(entry) {
        BadEntry(approved, multiset(list[..k]), entry, before, Reading(status, capacity));
        return Unreachable(approved);
      }
      GoodEntry(approved, multiset(list[..k]), entry, before, Reading(status, capacity));
      var found := CapacityOf(entry);
      capacity := capacity[node := found];
      status := status[node := Ready(found, approved[node])];
    }
    assert list[..|list|] == list;
    return Reading(status, capacity);
  }

  /** The state of the loop: the entries so far are sound, their names are the seen ones, and they
      have been read. */
  ghost predicate ReadSoFar(approved: map<string, string>, before: multiset<Json>, seen: set<string>, reading: Reading) {
    Sound(approved, before) && ReadsAs(reading, approved, Some(before))
    && forall node :: node in seen <==> exists e :: Lists(before, e, node)
  }

  /** A part of a sound inventory is sound. */
  lemma SoundPart(approved: map<string, string>, part: multiset<Json>, rest: multiset<Json>)
    requires Sound(approved, part + rest)
    ensures Sound(approved, part)
  {
    forall e | e in part ensures Named(e) && part[e] == 1 {
      assert e in part + rest && (part + rest)[e] == part[e] + rest[e];
    }
    forall e, node ensures Lists(part, e, node) ==> Lists(part + rest, e, node) {}
  }

  lemma PrefixIsSound(approved: map<string, string>, list: seq<Json>, k: nat)
    requires k < |list|
    ensures Sound(approved, multiset(list)) ==> Sound(approved, multiset(list[..k + 1]))
  {
    if Sound(approved, multiset(list)) {
      assert list == list[..k + 1] + list[k + 1..];
      SoundPart(approved, multiset(list[..k + 1]), multiset(list[k + 1..]));
    }
  }

  /** An entry without a name, with a seen name or with a bad capacity makes the inventory unsound. */
  lemma BadEntry(approved: map<string, string>, before: multiset<Json>, entry: Json, seen: set<string>, reading: Reading)
    requires ReadSoFar(approved, before, seen, reading)
    requires Named(entry) ==> Name(entry) in seen || (Name(entry) in approved && !ValidCapacity(entry))
    ensures !Sound(approved, before + multiset{entry})
  {
    var after := before + multiset{entry};
    assert entry in after && after[entry] == before[entry] + 1;
    if Named(entry) {
      var node := Name(entry);
      assert Lists(after, entry, node);
      if node in seen {
        var e :| Lists(before, e, node);
        assert Lists(after, e, node);
      }
    }
  }

  /** A new good entry keeps the inventory sound and is the only one about its node. */
  lemma GoodEntryIsSound(approved: map<string, string>, before: multiset<Json>, entry: Json)
    requires Sound(approved, before) && Named(entry) && (Name(entry) in approved ==> ValidCapacity(entry))
    requires forall e :: !Lists(before, e, Name(entry))
    ensures Sound(approved, before + multiset{entry})
    ensures forall e, node :: Lists(before + multiset{entry}, e, node) <==> Lists(before, e, node) || (e == entry && node == Name(entry))
  {
    var after := before + multiset{entry};
    assert !Lists(before, entry, Name(entry));
    assert after[entry] == 1;
    forall e, node ensures Lists(after, e, node) <==> Lists(before, e, node) || (e == entry && node == Name(entry)) {}
  }

  /** Such an entry is read by adding its name and, on an approved node, its capacity. */
  lemma GoodEntry(approved: map<string, string>, before: multiset<Json>, entry: Json, seen: set<string>, reading: Reading)
    requires ReadSoFar(approved, before, seen, reading)
    requires Named(entry) && Name(entry) !in seen && (Name(entry) in approved ==> ValidCapacity(entry))
    ensures ReadSoFar(approved, before + multiset{entry}, seen + {Name(entry)}, Updated(approved, reading, entry))
  {
    GoodEntryIsSound(approved, before, entry);
    assert Lists(before + multiset{entry}, entry, Name(entry));
    GoodEntryStatus(approved, before, entry, reading);
    GoodEntryCapacity(approved, before, entry, reading);
  }

  lemma GoodEntryStatus(approved: map<string, string>, before: multiset<Json>, entry: Json, reading: Reading)
    requires Sound(approved, before) && ReadsAs(reading, approved, Some(before))
    requires Named(entry) && (Name(entry) in approved ==> ValidCapacity(entry)) && forall e :: !Lists(before, e, Name(entry))
    ensures var after, reading' := before + multiset{entry}, Updated(approved, reading, entry);
            && reading'.status.Keys == approved.Keys
            && forall node :: node in approved ==> (reading'.status[node] <==> Healthy(approved, Some(after), node))
  {
    var named, after := Name(entry), before + multiset{entry};
    GoodEntryIsSound(approved, before, entry);
    assert Lists(after, entry, named);
    var reading' := Updated(approved, reading, entry);
    forall node | node in approved
      ensures reading'.status[node] <==> Healthy(approved, Some(after), node)
    {
      assert node != named ==> forall e :: Lists(after, e, node) <==> Lists(before, e, node);
    }
  }

  lemma GoodEntryCapacity(approved: map<string, string>, before: multiset<Json>, entry: Json, reading: Reading)
    requires Sound(approved, before) && ReadsAs(reading, approved, Some(before))
    requires Named(entry) && (Name(entry) in approved ==> ValidCapacity(entry)) && forall e :: !Lists(before, e, Name(entry))
    ensures var after, capacity := before + multiset{entry}, Updated(approved, reading, entry).capacity;
            && (forall node :: node in capacity <==> node in approved && exists e :: Lists(after, e, node))
            && (forall node, e :: node in capacity && Lists(after, e, node) ==> ValidCapacity(e) && capacity[node] == CapacityOf(e))
  {
    GoodEntryIsSound(approved, before, entry);
    assert Lists(before + multiset{entry}, entry, Name(entry));
  }

  function Updated(approved: map<string, string>, reading: Reading, entry: Json): Reading
    requires Named(entry) && (Name(entry) in approved ==> ValidCapacity(entry))
  {
    if Name(entry) !in approved then reading
    else Reading(reading.status[Name(entry) := Ready(CapacityOf(entry), approved[Name(entry)])],
                 reading.capacity[Name(entry) := CapacityOf(entry)])
  }

  lemma StatusIsUnique(approved: map<string, string>, a: Reading, b: Reading, entries: Option<multiset<Json>>)
    requires ReadsAs(a, approved, entries) && ReadsAs(b, approved, entries)
    ensures a.status == b.status
  {
    forall node | node in approved ensures a.status[node] == b.status[node] {
      assert a.status[node] <==> Healthy(approved, entries, node);
    }
  }

  lemma CapacityIsUnique(approved: map<string, string>, a: Reading, b: Reading, entries: Option<multiset<Json>>)
    requires ReadsAs(a, approved, entries) && ReadsAs(b, approved, entries)
    ensures a.capacity == b.capacity
  {
    assert a.capacity.Keys == b.capacity.Keys;
    forall node | node in a.capacity ensures a.capacity[node] == b.capacity[node] {
      var e :| Lists(entries.value, e, node);
    }
  }

  lemma ReadingIsUnique(approved: map<string, string>, a: Reading, b: Reading, entries: Option<multiset<Json>>)
    requires ReadsAs(a, approved, entries) && ReadsAs(b, approved, entries)
    ensures a == b
  {
    StatusIsUnique(approved, a, b, entries);
    CapacityIsUnique(approved, a, b, entries);
  }

  /** Two answers with the same entries in any order are read alike. */
  lemma OrderDoesNotMatter(approved: map<string, string>, a: Reading, b: Reading, x: seq<Json>, y: seq<Json>)
    requires multiset(x) == multiset(y)
    requires ReadsAs(a, approved, Bag(Some(x))) && ReadsAs(b, approved, Bag(Some(y)))
    ensures a == b
  {
    ReadingIsUnique(approved, a, b, Bag(Some(x)));
  }

  // ----- recording a reading -----

  /** The nodes a manager may speak for: registered under it and on the operator's list. */
  function Approved(nodes: NodeTable, manager: string, allowed: set<string>): map<string, string> {
    map node | node in nodes && nodes[node].manager == Some(manager) && node in allowed :: nodes[node].model
  }

  /** One row after the update. Each row is stamped by its own reading of the clock. */
  function RecordRow(row: NodeRow, node: string, manager: string, reading: Reading, at: Instant): NodeRow {
    if node in reading.status && row.manager == Some(manager)
    then row.(healthy := reading.status[node], lastHealth := Some(at),
              capacity := if node in reading.capacity then Some(reading.capacity[node]) else None)
    else row
  }

  function RecordTx(nodes: NodeTable, manager: string, reading: Reading, clock: string -> Instant): NodeTable {
    map node | node in nodes :: RecordRow(nodes[node], node, manager, reading, clock(node))
  }

  /** A manager may speak for exactly the nodes registered under it that the operator allows. */
  lemma ApprovedExactly(nodes: NodeTable, manager: string, allowed: set<string>, node: string)
    ensures var approved := Approved(nodes, manager, allowed);
            && (node in approved <==> node in nodes && node in allowed && nodes[node].manager == Some(manager))
            && (node in approved ==> approved[node] == nodes[node].model)
  {
  }

  class NodeMonitor {
    /** The update loop. The table may have changed since the nodes were read: a node that left the
        table or the manager in between is passed over. */
    method Record(db: Connection<NodeTable>, manager: string, reading: Reading, clock: string -> Instant)
      requires !db.active
      modifies db
      ensures !db.active && db.committed == RecordTx(old(db.committed), manager, reading, clock)
    {
      db.Enter();
      ghost var start := db.working;
      var todo := reading.status.Keys;
      while todo != {}
        invariant db.active && todo <= reading.status.Keys
        invariant db.working.Keys == start.Keys
        invariant forall node :: node in start ==>
                    db.working[node] == if node in todo then start[node] else RecordRow(start[node], node, manager, reading, clock(node))
      {
        var node :| node in todo;
        todo := todo - {node};
        if node in db.working && db.working[node].manager == Some(manager) {
          db.working := db.working[node := RecordRow(db.working[node], node, manager, reading, clock(node))];
        }
      }
      assert db.working == RecordTx(start, manager, reading, clock);
      db.Exit(false);
    }

    /** One probe of a manager. While its inventory is fetched, other transactions turn the table
        into `between`: the nodes approved when the probe began and still under the manager get the
        health their inventory gives them, and no other row changes. */
    method ProbeManager(db: Connection<NodeTable>, between: NodeTable, manager: string, allowed: set<string>, report: Option<Json>,
                        clock: string -> Instant) returns (status: map<string, bool>)
      requires !db.active
      modifies db
      ensures !db.active && db.committed.Keys == between.Keys
      ensures var approved := Approved(old(db.committed), manager, allowed);
              && status.Keys == approved.Keys
              && (forall node :: node in approved ==> (status[node] <==> Healthy(approved, Bag(Entries(report)), node)))
              && forall node :: node in db.committed ==>
                   var row, was := db.committed[node], between[node];
                   if node !in approved || was.manager != Some(manager) then row == was
                   else row == was.(healthy := status[node], lastHealth := Some(clock(node)), capacity := row.capacity)
                        && (row.capacity.Some? <==>
                              Entries(report).Some? && Sound(approved, multiset(Entries(report).value))
                              && exists e :: Lists(multiset(Entries(report).value), e, node))
                        && (row.capacity.Some? ==>
                              forall e :: Lists(multiset(Entries(report).value), e, node) ==> ValidCapacity(e) && row.capacity.value == CapacityOf(e))
    {
      db.Enter();
      var approved := Approved(db.working, manager, allowed);
      db.Exit(false);
      var reading := ReadInventory(approved, report);
      db.Others(between);
      Record(db, manager, reading, clock);
      status := reading.status;
    }
  }
}
