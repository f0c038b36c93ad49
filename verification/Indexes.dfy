/** Property indexes: a manager of named indexes, kept up to date by node and edge changes.
    Nodes are indexed under each of their labels, edges under their relationship type; here
    both are entities with tags. */
module Indexes {
  import opened Wrappers
  import opened Graph
  import Links
  import opened Ordering

  /** An index on one (tag, key) pair: property value to the ids inserted under it. */
  datatype Index = Index(tag: nat, key: nat, tree: map<Value, seq<nat>>)

  type Manager = map<string, Index>

  datatype Indexed = Indexed(tags: seq<nat>, props: Props)

  type Entities = map<nat, Indexed>

  function Insert(ix: Index, v: Value, id: nat): Index {
    ix.(tree := ix.tree[v := (if v in ix.tree then ix.tree[v] else []) + [id]])
  }

  /** Removes every occurrence of the id under the value; an empty entry goes as well. */
  function Remove(ix: Index, v: Value, id: nat): Index {
    if v !in ix.tree then ix
    else if Links.Without(ix.tree[v], id) == [] then ix.(tree := ix.tree - {v})
    else ix.(tree := ix.tree[v := Links.Without(ix.tree[v], id)])
  }

  function Lookup(ix: Index, v: Value): seq<nat> {
    if v in ix.tree then ix.tree[v] else []
  }

  predicate Between(min: Value, v: Value, max: Value) {
    Compare(min, v) <= 0 && Compare(v, max) <= 0
  }

  /** The ids under the values from `min` to `max`. */
  function Range(ix: Index, min: Value, max: Value): set<nat> {
    set v, id | v in ix.tree && Between(min, v, max) && id in ix.tree[v] :: id
  }

  /** The ids of a sequence in a set. */
  function Ids(s: seq<nat>): set<nat> {
    set id | id in s
  }

  // ---------------------------------------------------------------------------
  // Finding an index by its pair
  // ---------------------------------------------------------------------------

  /** The managers are hash maps. Searching by pair returns the first match in an iteration
      order the code does not control: some choice among the matching names that may depend
      on all names. */
  type Picker = (set<string>, set<string>) -> string

  ghost predicate ValidPicker(pick: Picker) {
    forall all, names :: names != {} ==> pick(all, names) in names
  }

  function Matching(m: Manager, tag: nat, key: nat): set<string> {
    set name | name in m && m[name].tag == tag && m[name].key == key
  }

  function Find(m: Manager, pick: Picker, tag: nat, key: nat): Option<string> {
    var names := Matching(m, tag, key);
    if names == {} then None else Some(pick(m.Keys, names))
  }

  function InsertAt(m: Manager, pick: Picker, tag: nat, key: nat, v: Value, id: nat): Manager {
    match Find(m, pick, tag, key)
    case Some(name) => if name in m then m[name := Insert(m[name], v, id)] else m
    case None => m
  }

  function RemoveAt(m: Manager, pick: Picker, tag: nat, key: nat, v: Value, id: nat): Manager {
    match Find(m, pick, tag, key)
    case Some(name) => if name in m then m[name := Remove(m[name], v, id)] else m
    case None => m
  }

  // ---------------------------------------------------------------------------
  // Maintenance by the entity operations
  // ---------------------------------------------------------------------------

  function InsertProps(m: Manager, pick: Picker, tag: nat, props: Props, id: nat): Manager {
    if props == [] then m
    else
      var last := props[|props| - 1];
      InsertAt(InsertProps(m, pick, tag, props[..|props| - 1], id), pick, tag, last.0, last.1, id)
  }

  function RemoveProps(m: Manager, pick: Picker, tag: nat, props: Props, id: nat): Manager {
    if props == [] then m
    else
      var last := props[|props| - 1];
      RemoveAt(RemoveProps(m, pick, tag, props[..|props| - 1], id), pick, tag, last.0, last.1, id)
  }

  function OnCreate(m: Manager, pick: Picker, tags: seq<nat>, props: Props, id: nat): Manager {
    if tags == [] then m
    else InsertProps(OnCreate(m, pick, tags[..|tags| - 1], props, id), pick, tags[|tags| - 1], props, id)
  }

  function OnDelete(m: Manager, pick: Picker, tags: seq<nat>, props: Props, id: nat): Manager {
    if tags == [] then m
    else RemoveProps(OnDelete(m, pick, tags[..|tags| - 1], props, id), pick, tags[|tags| - 1], props, id)
  }

  /** For each tag: old values out, new values in. */
  function OnUpdate(m: Manager, pick: Picker, tags: seq<nat>, before: Props, after: Props, id: nat): Manager {
    if tags == [] then m
    else
      var tag := tags[|tags| - 1];
      var rest := OnUpdate(m, pick, tags[..|tags| - 1], before, after, id);
      InsertProps(RemoveProps(rest, pick, tag, before, id), pick, tag, after, id)
  }

  // ---------------------------------------------------------------------------
  // Creating an index
  // ---------------------------------------------------------------------------

  /** The ids below `next` of the entities with a tag, in id order. */
  function ScanTag(ents: Entities, tag: nat, next: nat): seq<nat> {
    if next == 0 then []
    else ScanTag(ents, tag, next - 1) + if next - 1 in ents && tag in ents[next - 1].tags then [next - 1] else []
  }

  /** The backfill loop over one entity's properties. */
  function BackfillProps(m: Manager, pick: Picker, tag: nat, key: nat, props: Props, id: nat): Manager {
    if props == [] then m
    else
      var last := props[|props| - 1];
      var rest := BackfillProps(m, pick, tag, key, props[..|props| - 1], id);
      if last.0 == key then InsertAt(rest, pick, tag, key, last.1, id) else rest
  }

  function BackfillAll(m: Manager, pick: Picker, tag: nat, key: nat, ents: Entities, ids: seq<nat>): Manager {
    if ids == [] then m
    else
      var id := ids[|ids| - 1];
      var rest := BackfillAll(m, pick, tag, key, ents, ids[..|ids| - 1]);
      if id in ents then BackfillProps(rest, pick, tag, key, ents[id].props, id) else rest
  }

  /** None when the name is taken. */
  function CreateIndex(m: Manager, pick: Picker, name: string, tag: nat, key: nat, ents: Entities, next: nat): Option<Manager> {
    if name in m then None
    else Some(BackfillAll(m[name := Index(tag, key, map[])], pick, tag, key, ents, ScanTag(ents, tag, next)))
  }

  // ---------------------------------------------------------------------------
  // Queries
  // ---------------------------------------------------------------------------

  /** The index on the pair lists the entity under exactly this value. */
  predicate Holds(e: Indexed, tag: nat, key: nat, v: Value) {
    tag in e.tags && (key, v) in e.props
  }

  /** The test of the linear scan: a property under the key that `==` finds equal. */
  predicate HasEqual(props: Props, key: nat, v: Value) {
    exists i | 0 <= i < |props| :: props[i].0 == key && Same(props[i].1, v)
  }

  predicate Finds(e: Indexed, tag: nat, key: nat, v: Value) {
    tag in e.tags && HasEqual(e.props, key, v)
  }

  function LinearScan(ents: Entities, tag: nat, key: nat, v: Value, next: nat): seq<nat> {
    if next == 0 then []
    else LinearScan(ents, tag, key, v, next - 1) + if next - 1 in ents && Finds(ents[next - 1], tag, key, v) then [next - 1] else []
  }

  function ScanByProperty(m: Manager, pick: Picker, ents: Entities, next: nat, tag: nat, key: nat, v: Value): seq<nat> {
    match Find(m, pick, tag, key)
    case Some(name) => if name in m then Lookup(m[name], v) else []
    case None => LinearScan(ents, tag, key, v, next)
  }

  /** The test of the linear scan on one property. */
  predicate Matches(prop: (nat, Value), key: nat, min: Value, max: Value) {
    prop.0 == key && Compare(prop.1, min) >= 0 && Compare(prop.1, max) <= 0
  }

  predicate InRange(e: Indexed, tag: nat, key: nat, min: Value, max: Value) {
    tag in e.tags && exists i | 0 <= i < |e.props| :: Matches(e.props[i], key, min, max)
  }

  function LinearRange(ents: Entities, tag: nat, key: nat, min: Value, max: Value, next: nat): set<nat> {
    set id | id in ents && id < next && InRange(ents[id], tag, key, min, max)
  }

  /** The ids in a value range. The ordered map of an index rejects a range whose lower end
      is above its upper end with a panic, here None; the linear scan finds nothing. */
  function ScanByRange(m: Manager, pick: Picker, ents: Entities, next: nat, tag: nat, key: nat, min: Value, max: Value): Option<set<nat>> {
    match Find(m, pick, tag, key)
    case Some(name) =>
      if name !in m then Some({})
      else if Compare(min, max) > 0 then None
      else Some(Range(m[name], min, max))
    case None => Some(LinearRange(ents, tag, key, min, max, next))
  }
}
