/** The index manager, changed in place: the loops that keep indexes up to date, fill a new one
    and answer queries. */
module IndexManagers {
  import opened Wrappers
  import opened Graph
  import opened Indexes
  import opened Ordering
  import L = Links

  class IndexManager {
    var indexes: Manager
    /** Stands for the iteration order of the hash map. */
    const pick: Picker

    constructor (pick: Picker)
      ensures indexes == map[] && this.pick == pick
    {
      this.pick := pick;
      indexes := map[];
    }

    /** Inserts a value into the index on a pair, if there is one. */
    method Insert(tag: nat, key: nat, v: Value, id: nat)
      modifies this
      ensures indexes == InsertAt(old(indexes), pick, tag, key, v, id)
    {
      var found := Find(indexes, pick, tag, key);
      if found.Some? && found.value in indexes {
        indexes := indexes[found.value := Indexes.Insert(indexes[found.value], v, id)];
      }
    }

    /** Keeps the ids that differ, as `retain` does. */
    static method Retain(ids: seq<nat>, id: nat) returns (kept: seq<nat>)
      ensures kept == L.Without(ids, id)
    {
      kept := [];
      for i := 0 to |ids|
        invariant kept == L.Without(ids[..i], id)
      {
        assert ids[..i + 1][..i] == ids[..i];
        if ids[i] != id {
          kept := kept + [ids[i]];
        }
      }
      assert ids[..|ids|] == ids;
    }

    method Remove(tag: nat, key: nat, v: Value, id: nat)
      modifies this
      ensures indexes == RemoveAt(old(indexes), pick, tag, key, v, id)
    {
      var found := Find(indexes, pick, tag, key);
      if found.Some? && found.value in indexes {
        var ix := indexes[found.value];
        if v in ix.tree {
          var kept := Retain(ix.tree[v], id);
          ix := ix.(tree := if kept == [] then ix.tree - {v} else ix.tree[v := kept]);
        }
        indexes := indexes[found.value := ix];
      }
    }

    method InsertAll(tag: nat, props: Props, id: nat)
      modifies this
      ensures indexes == InsertProps(old(indexes), pick, tag, props, id)
    {
      for i := 0 to |props|
        invariant indexes == InsertProps(old(indexes), pick, tag, props[..i], id)
      {
        assert props[..i + 1][..i] == props[..i];
        Insert(tag, props[i].0, props[i].1, id);
      }
      assert props[..|props|] == props;
    }

    method RemoveAll(tag: nat, props: Props, id: nat)
      modifies this
      ensures indexes == RemoveProps(old(indexes), pick, tag, props, id)
    {
      for i := 0 to |props|
        invariant indexes == RemoveProps(old(indexes), pick, tag, props[..i], id)
      {
        assert props[..i + 1][..i] == props[..i];
        Remove(tag, props[i].0, props[i].1, id);
      }
      assert props[..|props|] == props;
    }

    /** After a creation: for every tag, every property. */
    method Created(tags: seq<nat>, props: Props, id: nat)
      modifies this
      ensures indexes == OnCreate(old(indexes), pick, tags, props, id)
    {
      for i := 0 to |tags|
        invariant indexes == OnCreate(old(indexes), pick, tags[..i], props, id)
      {
        assert tags[..i + 1][..i] == tags[..i];
        InsertAll(tags[i], props, id);
      }
      assert tags[..|tags|] == tags;
    }

    method Deleted(tags: seq<nat>, props: Props, id: nat)
      modifies this
      ensures indexes == OnDelete(old(indexes), pick, tags, props, id)
    {
      for i := 0 to |tags|
        invariant indexes == OnDelete(old(indexes), pick, tags[..i], props, id)
      {
        assert tags[..i + 1][..i] == tags[..i];
        RemoveAll(tags[i], props, id);
      }
      assert tags[..|tags|] == tags;
    }

    /** After an update: for every tag, old values out, new values in. */
    method Updated(tags: seq<nat>, before: Props, after: Props, id: nat)
      modifies this
      ensures indexes == OnUpdate(old(indexes), pick, tags, before, after, id)
    {
      for i := 0 to |tags|
        invariant indexes == OnUpdate(old(indexes), pick, tags[..i], before, after, id)
      {
        assert tags[..i + 1][..i] == tags[..i];
        RemoveAll(tags[i], before, id);
        InsertAll(tags[i], after, id);
      }
      assert tags[..|tags|] == tags;
    }

    /** The ids with a tag, in id order. */
    static method ScanByTag(ents: Entities, tag: nat, next: nat) returns (ids: seq<nat>)
      ensures ids == ScanTag(ents, tag, next)
    {
      ids := [];
      for id := 0 to next
        invariant ids == ScanTag(ents, tag, id)
      {
        if id in ents && tag in ents[id].tags {
          ids := ids + [id];
        }
      }
    }

    /** Fills the index on a pair from one entity. */
    method BackfillOne(tag: nat, key: nat, props: Props, id: nat)
      modifies this
      ensures indexes == BackfillProps(old(indexes), pick, tag, key, props, id)
    {
      for i := 0 to |props|
        invariant indexes == BackfillProps(old(indexes), pick, tag, key, props[..i], id)
      {
        assert props[..i + 1][..i] == props[..i];
        if props[i].0 == key {
          Insert(tag, key, props[i].1, id);
        }
      }
      assert props[..|props|] == props;
    }

    /** Creates an index and fills it from the entities there are; fails if the name is taken. */
    method Create(name: string, tag: nat, key: nat, ents: Entities, next: nat) returns (ok: bool)
      modifies this
      ensures var r := CreateIndex(old(indexes), pick, name, tag, key, ents, next);
              (ok <==> r.Some?) && indexes == r.GetOr(old(indexes))
    {
      if name in indexes {
        return false;
      }
      indexes := indexes[name := Index(tag, key, map[])];
      ghost var start := indexes;
      var ids := ScanByTag(ents, tag, next);
      for i := 0 to |ids|
        invariant indexes == BackfillAll(start, pick, tag, key, ents, ids[..i])
      {
        assert ids[..i + 1][..i] == ids[..i];
        if ids[i] in ents {
          BackfillOne(tag, key, ents[ids[i]].props, ids[i]);
        }
      }
      assert ids[..|ids|] == ids;
      ok := true;
    }

    method Clear()
      modifies this
      ensures indexes == map[]
    {
      indexes := map[];
    }

    method Drop(name: string) returns (ok: bool)
      modifies this
      ensures (ok <==> name in old(indexes)) && indexes == old(indexes) - {name}
    {
      ok := name in indexes;
      indexes := indexes - {name};
    }

    /** The ids with a property: from an index on the pair, else by a scan of all entities. */
    method FindIds(ents: Entities, next: nat, tag: nat, key: nat, v: Value) returns (ids: seq<nat>)
      ensures ids == ScanByProperty(indexes, pick, ents, next, tag, key, v)
    {
      var found := Find(indexes, pick, tag, key);
      if found.Some? {
        return if found.value in indexes then Lookup(indexes[found.value], v) else [];
      }
      ids := [];
      for id := 0 to next
        invariant ids == LinearScan(ents, tag, key, v, id)
      {
        if id in ents && Finds(ents[id], tag, key, v) {
          ids := ids + [id];
        }
      }
    }

    /** The ids in a value range; None stands for the panic on an upside-down range. */
    method FindRange(ents: Entities, next: nat, tag: nat, key: nat, min: Value, max: Value) returns (r: Option<set<nat>>)
      ensures r == ScanByRange(indexes, pick, ents, next, tag, key, min, max)
    {
      hide Compare, InRange;
      var found := Find(indexes, pick, tag, key);
      if found.Some? {
        if found.value !in indexes {
          return Some({});
        }
        return if Compare(min, max) > 0 then None else Some(Range(indexes[found.value], min, max));
      }
      var ids := {};
      for id := 0 to next
        invariant ids == LinearRange(ents, tag, key, min, max, id)
      {
        if id in ents && InRange(ents[id], tag, key, min, max) {
          ids := ids + {id};
        }
      }
      r := Some(ids);
    }
  }
}
