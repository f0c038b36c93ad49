/** Indexed search returns what the linear scan returns. */
module IndexProofs {
  import opened Wrappers
  import opened Graph
  import Links
  import opened Ordering
  import opened Indexes

  predicate Has(ix: Index, v: Value, id: nat) {
    v in ix.tree && id in ix.tree[v]
  }

  /** The index holds an entity under exactly the values it has, except that it may still
      hold `stale` ids, of entities that went away without telling the index. */
  ghost predicate Exact(ix: Index, ents: Entities, stale: set<nat>) {
    forall v, id :: id !in stale ==>
      (Has(ix, v, id) <==> id in ents && Holds(ents[id], ix.tag, ix.key, v))
  }

  /** At most one index per pair. */
  ghost predicate UniquePairs(m: Manager) {
    forall a, b | a in m && b in m && m[a].tag == m[b].tag && m[a].key == m[b].key :: a == b
  }

  ghost predicate AllExact(m: Manager, ents: Entities, stale: set<nat>) {
    UniquePairs(m) && forall name | name in m :: Exact(m[name], ents, stale)
  }

  /** Two managers with the same indexes, apart from the entries. */
  ghost predicate SameShape(m: Manager, n: Manager) {
    m.Keys == n.Keys && forall name | name in m :: n[name].tag == m[name].tag && n[name].key == m[name].key
  }

  lemma SameMatching(m: Manager, n: Manager, tag: nat, key: nat)
    requires SameShape(m, n)
    ensures Matching(n, tag, key) == Matching(m, tag, key)
    ensures forall name | name in Matching(m, tag, key) :: name in m && name in n
  {
  }

  lemma InsertHas(ix: Index, v: Value, id: nat)
    ensures forall w, j :: Has(Insert(ix, v, id), w, j) <==> Has(ix, w, j) || (w == v && j == id)
  {
  }

  lemma RemoveHas(ix: Index, v: Value, id: nat)
    ensures forall w, j :: Has(Remove(ix, v, id), w, j) <==> Has(ix, w, j) && !(w == v && j == id)
  {
    if v in ix.tree {
      var kept := Links.Without(ix.tree[v], id);
      if kept == [] {
        assert forall j :: j in ix.tree[v] ==> j == id by {
          forall j | j in ix.tree[v]
            ensures j == id
          {
            assert j != id ==> j in kept;
          }
        }
      }
    }
  }

  lemma FindUnique(m: Manager, pick: Picker, tag: nat, key: nat)
    requires UniquePairs(m) && ValidPicker(pick)
    ensures forall name | name in m && m[name].tag == tag && m[name].key == key :: Find(m, pick, tag, key) == Some(name)
    ensures var found := Find(m, pick, tag, key);
            found.Some? ==> found.value in m && m[found.value].tag == tag && m[found.value].key == key
  {
    var names := Matching(m, tag, key);
    if names != {} {
      var picked := pick(m.Keys, names);
      assert picked in names;
      assert picked in m && m[picked].tag == tag && m[picked].key == key;
    }
    forall name | name in m && m[name].tag == tag && m[name].key == key
      ensures Find(m, pick, tag, key) == Some(name)
    {
      assert name in names;
    }
  }

  /** What one insertion by pair does to each index. */
  lemma InsertAtHas(m: Manager, pick: Picker, tag: nat, key: nat, v: Value, id: nat)
    requires UniquePairs(m) && ValidPicker(pick)
    ensures var n := InsertAt(m, pick, tag, key, v, id);
            && SameShape(m, n) && UniquePairs(n)
            && forall name, w, j | name in m :: Has(n[name], w, j) <==>
                 Has(m[name], w, j) || (m[name].tag == tag && m[name].key == key && w == v && j == id)
  {
    FindUnique(m, pick, tag, key);
    var found := Find(m, pick, tag, key);
    if found.Some? {
      InsertHas(m[found.value], v, id);
    }
    hide Has, Insert;
  }

  lemma RemoveAtHas(m: Manager, pick: Picker, tag: nat, key: nat, v: Value, id: nat)
    requires UniquePairs(m) && ValidPicker(pick)
    ensures var n := RemoveAt(m, pick, tag, key, v, id);
            && SameShape(m, n) && UniquePairs(n)
            && forall name, w, j | name in m :: Has(n[name], w, j) <==>
                 Has(m[name], w, j) && !(m[name].tag == tag && m[name].key == key && w == v && j == id)
  {
    FindUnique(m, pick, tag, key);
    var found := Find(m, pick, tag, key);
    if found.Some? {
      RemoveHas(m[found.value], v, id);
    }
    hide Has, Remove;
  }

  lemma {:induction false} InsertPropsHas(m: Manager, pick: Picker, tag: nat, props: Props, id: nat)
    requires UniquePairs(m) && ValidPicker(pick)
    ensures var n := InsertProps(m, pick, tag, props, id);
            && SameShape(m, n) && UniquePairs(n)
            && forall name, w, j | name in m :: Has(n[name], w, j) <==>
                 Has(m[name], w, j) || (m[name].tag == tag && j == id && (m[name].key, w) in props)
  {
    hide Has, InsertAt;
    if props != [] {
      var front, last := props[..|props| - 1], props[|props| - 1];
      assert props == front + [last];
      InsertPropsHas(m, pick, tag, front, id);
      InsertAtHas(InsertProps(m, pick, tag, front, id), pick, tag, last.0, last.1, id);
    }
  }

  lemma {:induction false} RemovePropsHas(m: Manager, pick: Picker, tag: nat, props: Props, id: nat)
    requires UniquePairs(m) && ValidPicker(pick)
    ensures var n := RemoveProps(m, pick, tag, props, id);
            && SameShape(m, n) && UniquePairs(n)
            && forall name, w, j | name in m :: Has(n[name], w, j) <==>
                 Has(m[name], w, j) && !(m[name].tag == tag && j == id && (m[name].key, w) in props)
  {
    hide Has, RemoveAt;
    if props != [] {
      var front, last := props[..|props| - 1], props[|props| - 1];
      assert props == front + [last];
      RemovePropsHas(m, pick, tag, front, id);
      RemoveAtHas(RemoveProps(m, pick, tag, front, id), pick, tag, last.0, last.1, id);
    }
  }

  lemma {:induction false} OnCreateHas(m: Manager, pick: Picker, tags: seq<nat>, props: Props, id: nat)
    requires UniquePairs(m) && ValidPicker(pick)
    ensures var n := OnCreate(m, pick, tags, props, id);
            && SameShape(m, n) && UniquePairs(n)
            && forall name, w, j | name in m :: Has(n[name], w, j) <==>
                 Has(m[name], w, j) || (m[name].tag in tags && j == id && (m[name].key, w) in props)
  {
    hide Has, InsertProps;
    if tags != [] {
      var front, last := tags[..|tags| - 1], tags[|tags| - 1];
      assert tags == front + [last];
      OnCreateHas(m, pick, front, props, id);
      InsertPropsHas(OnCreate(m, pick, front, props, id), pick, last, props, id);
    }
  }

  lemma {:induction false} OnDeleteHas(m: Manager, pick: Picker, tags: seq<nat>, props: Props, id: nat)
    requires UniquePairs(m) && ValidPicker(pick)
    ensures var n := OnDelete(m, pick, tags, props, id);
            && SameShape(m, n) && UniquePairs(n)
            && forall name, w, j | name in m :: Has(n[name], w, j) <==>
                 Has(m[name], w, j) && !(m[name].tag in tags && j == id && (m[name].key, w) in props)
  {
    hide Has, RemoveProps;
    if tags != [] {
      var front, last := tags[..|tags| - 1], tags[|tags| - 1];
      assert tags == front + [last];
      OnDeleteHas(m, pick, front, props, id);
      RemovePropsHas(OnDelete(m, pick, front, props, id), pick, last, props, id);
    }
  }

  /** A second pass over the same tag changes nothing more, so repeated labels do no harm. */
  lemma {:induction false} OnUpdateHas(m: Manager, pick: Picker, tags: seq<nat>, before: Props, after: Props, id: nat)
    requires UniquePairs(m) && ValidPicker(pick)
    ensures var n := OnUpdate(m, pick, tags, before, after, id);
            && SameShape(m, n) && UniquePairs(n)
            && forall name, w, j | name in m :: Has(n[name], w, j) <==>
                 if m[name].tag in tags && j == id
                 then (Has(m[name], w, j) && (m[name].key, w) !in before) || (m[name].key, w) in after
                 else Has(m[name], w, j)
  {
    hide Has, RemoveProps, InsertProps;
    if tags != [] {
      var front, last := tags[..|tags| - 1], tags[|tags| - 1];
      assert tags == front + [last];
      OnUpdateHas(m, pick, front, before, after, id);
      var rest := OnUpdate(m, pick, front, before, after, id);
      RemovePropsHas(rest, pick, last, before, id);
      InsertPropsHas(RemoveProps(rest, pick, last, before, id), pick, last, after, id);
    }
  }

  // ---------------------------------------------------------------------------
  // The entity operations keep every index exact
  // ---------------------------------------------------------------------------

  lemma CreateKeepsIndex(m: Manager, pick: Picker, ents: Entities, stale: set<nat>, id: nat, e: Indexed, name: string)
    requires UniquePairs(m) && ValidPicker(pick) && id !in ents && id !in stale
    requires name in m && Exact(m[name], ents, stale)
    ensures name in OnCreate(m, pick, e.tags, e.props, id)
    ensures Exact(OnCreate(m, pick, e.tags, e.props, id)[name], ents[id := e], stale)
  {
    OnCreateHas(m, pick, e.tags, e.props, id);
    hide Has, OnCreate;
  }

  lemma UpdateKeepsIndex(m: Manager, pick: Picker, ents: Entities, stale: set<nat>, id: nat, props: Props, name: string)
    requires UniquePairs(m) && ValidPicker(pick) && id in ents
    requires name in m && Exact(m[name], ents, stale)
    ensures name in OnUpdate(m, pick, ents[id].tags, ents[id].props, props, id)
    ensures Exact(OnUpdate(m, pick, ents[id].tags, ents[id].props, props, id)[name], ents[id := ents[id].(props := props)], stale)
  {
    OnUpdateHas(m, pick, ents[id].tags, ents[id].props, props, id);
    hide Has, OnUpdate;
  }

  lemma DeleteKeepsIndex(m: Manager, pick: Picker, ents: Entities, stale: set<nat>, id: nat, name: string)
    requires UniquePairs(m) && ValidPicker(pick) && id in ents
    requires name in m && Exact(m[name], ents, stale)
    ensures name in OnDelete(m, pick, ents[id].tags, ents[id].props, id)
    ensures Exact(OnDelete(m, pick, ents[id].tags, ents[id].props, id)[name], ents - {id}, stale)
  {
    OnDeleteHas(m, pick, ents[id].tags, ents[id].props, id);
    hide Has, OnDelete;
  }

  lemma CreateKeepsExact(m: Manager, pick: Picker, ents: Entities, stale: set<nat>, id: nat, e: Indexed)
    requires AllExact(m, ents, stale) && ValidPicker(pick) && id !in ents && id !in stale
    ensures AllExact(OnCreate(m, pick, e.tags, e.props, id), ents[id := e], stale)
  {
    OnCreateHas(m, pick, e.tags, e.props, id);
    hide Exact, OnCreate;
    forall name | name in m
      ensures Exact(OnCreate(m, pick, e.tags, e.props, id)[name], ents[id := e], stale)
    {
      CreateKeepsIndex(m, pick, ents, stale, id, e, name);
    }
  }

  lemma UpdateKeepsExact(m: Manager, pick: Picker, ents: Entities, stale: set<nat>, id: nat, props: Props)
    requires AllExact(m, ents, stale) && ValidPicker(pick) && id in ents
    ensures AllExact(OnUpdate(m, pick, ents[id].tags, ents[id].props, props, id), ents[id := ents[id].(props := props)], stale)
  {
    OnUpdateHas(m, pick, ents[id].tags, ents[id].props, props, id);
    hide Exact, OnUpdate;
    forall name | name in m
      ensures Exact(OnUpdate(m, pick, ents[id].tags, ents[id].props, props, id)[name],
                    ents[id := ents[id].(props := props)], stale)
    {
      UpdateKeepsIndex(m, pick, ents, stale, id, props, name);
    }
  }

  lemma DeleteKeepsExact(m: Manager, pick: Picker, ents: Entities, stale: set<nat>, id: nat)
    requires AllExact(m, ents, stale) && ValidPicker(pick) && id in ents
    ensures AllExact(OnDelete(m, pick, ents[id].tags, ents[id].props, id), ents - {id}, stale)
  {
    OnDeleteHas(m, pick, ents[id].tags, ents[id].props, id);
    hide Exact, OnDelete;
    forall name | name in m
      ensures Exact(OnDelete(m, pick, ents[id].tags, ents[id].props, id)[name], ents - {id}, stale)
    {
      DeleteKeepsIndex(m, pick, ents, stale, id, name);
    }
  }

  /** Entities that go away without telling the indexes become stale. */
  lemma ForgetMakesStale(m: Manager, ents: Entities, stale: set<nat>, gone: set<nat>)
    requires AllExact(m, ents, stale)
    ensures AllExact(m, ents - gone, stale + gone)
  {
    hide Has;
  }

  // ---------------------------------------------------------------------------
  // Creating and dropping indexes
  // ---------------------------------------------------------------------------

  lemma {:induction false} ScanTagIds(ents: Entities, tag: nat, next: nat)
    ensures forall id :: id in ScanTag(ents, tag, next) <==> id < next && id in ents && tag in ents[id].tags
  {
    if next > 0 {
      ScanTagIds(ents, tag, next - 1);
    }
  }

  lemma {:induction false} BackfillPropsHas(m: Manager, pick: Picker, tag: nat, key: nat, props: Props, id: nat)
    requires UniquePairs(m) && ValidPicker(pick)
    ensures var n := BackfillProps(m, pick, tag, key, props, id);
            && SameShape(m, n) && UniquePairs(n)
            && forall name, w, j | name in m :: Has(n[name], w, j) <==>
                 Has(m[name], w, j) || (m[name].tag == tag && m[name].key == key && j == id && (key, w) in props)
  {
    hide Has, InsertAt;
    if props != [] {
      var front, last := props[..|props| - 1], props[|props| - 1];
      assert props == front + [last];
      BackfillPropsHas(m, pick, tag, key, front, id);
      InsertAtHas(BackfillProps(m, pick, tag, key, front, id), pick, tag, key, last.1, id);
    }
  }

  predicate Listed(ents: Entities, ids: seq<nat>, key: nat, v: Value, id: nat) {
    id in ids && id in ents && (key, v) in ents[id].props
  }

  lemma {:induction false} BackfillAllHas(m: Manager, pick: Picker, tag: nat, key: nat, ents: Entities, ids: seq<nat>)
    requires UniquePairs(m) && ValidPicker(pick)
    ensures var n := BackfillAll(m, pick, tag, key, ents, ids);
            && SameShape(m, n) && UniquePairs(n)
            && forall name, w, j {:trigger Has(n[name], w, j)} {:trigger Has(m[name], w, j)} | name in m :: Has(n[name], w, j) <==>
                 Has(m[name], w, j) || (m[name].tag == tag && m[name].key == key && Listed(ents, ids, key, w, j))
  {
    hide Has, BackfillProps;
    if ids != [] {
      var front, last := ids[..|ids| - 1], ids[|ids| - 1];
      assert ids == front + [last];
      BackfillAllHas(m, pick, tag, key, ents, front);
      assert forall w, j :: Listed(ents, ids, key, w, j) <==>
        Listed(ents, front, key, w, j) || (j == last && last in ents && (key, w) in ents[last].props);
      var rest, n := BackfillAll(m, pick, tag, key, ents, front), BackfillAll(m, pick, tag, key, ents, ids);
      if last in ents {
        BackfillPropsHas(rest, pick, tag, key, ents[last].props, last);
      }
    } else {
      assert forall w, j :: !Listed(ents, ids, key, w, j);
    }
  }

  /** A new index on a free pair is exact from the start; the others keep their entries. */
  lemma CreateIndexHas(m: Manager, pick: Picker, name: string, tag: nat, key: nat, ents: Entities, next: nat)
    requires UniquePairs(m) && ValidPicker(pick)
    requires name !in m && Matching(m, tag, key) == {}
    requires forall id | id in ents :: id < next
    ensures var n := CreateIndex(m, pick, name, tag, key, ents, next).value;
            && SameShape(m[name := Index(tag, key, map[])], n) && UniquePairs(n)
            && Exact(n[name], ents, {})
            && forall other, w, j | other in m :: Has(n[other], w, j) <==> Has(m[other], w, j)
  {
    var base := m[name := Index(tag, key, map[])];
    var ids := ScanTag(ents, tag, next);
    assert forall other | other in m :: other !in Matching(m, tag, key);
    assert UniquePairs(base);
    ScanTagIds(ents, tag, next);
    BackfillAllHas(base, pick, tag, key, ents, ids);
    var n := BackfillAll(base, pick, tag, key, ents, ids);
    assert forall w, j :: !Has(base[name], w, j);
    hide Has, Listed;
    assert forall w, j :: Has(n[name], w, j) <==> Listed(ents, ids, key, w, j);
    assert Exact(n[name], ents, {}) by {
      ListedHolds(ents, ids, tag, key);
    }
  }

  lemma ListedHolds(ents: Entities, ids: seq<nat>, tag: nat, key: nat)
    requires forall id :: id in ids <==> id in ents && tag in ents[id].tags
    ensures forall w, j :: Listed(ents, ids, key, w, j) <==> j in ents && Holds(ents[j], tag, key, w)
  {
  }

  lemma CreateIndexKeepsExact(m: Manager, pick: Picker, name: string, tag: nat, key: nat, ents: Entities, next: nat, stale: set<nat>)
    requires AllExact(m, ents, stale) && ValidPicker(pick)
    requires name !in m && Matching(m, tag, key) == {}
    requires forall id | id in ents :: id < next
    ensures AllExact(CreateIndex(m, pick, name, tag, key, ents, next).value, ents, stale)
  {
    CreateIndexHas(m, pick, name, tag, key, ents, next);
    var n := CreateIndex(m, pick, name, tag, key, ents, next).value;
    hide Has, CreateIndex;
    forall other | other in n
      ensures Exact(n[other], ents, stale)
    {
      if other != name {
        assert other in m && Exact(m[other], ents, stale);
      }
    }
  }

  lemma DropKeepsExact(m: Manager, ents: Entities, stale: set<nat>, name: string)
    requires AllExact(m, ents, stale)
    ensures AllExact(m - {name}, ents, stale)
  {
  }

  // ---------------------------------------------------------------------------
  // Queries
  // ---------------------------------------------------------------------------

  lemma {:induction false} LinearScanIds(ents: Entities, tag: nat, key: nat, v: Value, next: nat)
    ensures forall id :: id in LinearScan(ents, tag, key, v, next) <==> id < next && id in ents && Finds(ents[id], tag, key, v)
  {
    if next > 0 {
      LinearScanIds(ents, tag, key, v, next - 1);
    }
  }

  /** For values without NaN and zeros the two equalities are one. */
  lemma DefiniteFinds(e: Indexed, tag: nat, key: nat, v: Value)
    requires Definite(v)
    ensures Finds(e, tag, key, v) <==> Holds(e, tag, key, v)
  {
    hide Same, Definite;
    forall i | 0 <= i < |e.props|
      ensures Same(e.props[i].1, v) <==> e.props[i].1 == v
    {
      DefiniteIsSame(e.props[i].1, v);
    }
    if (key, v) in e.props {
      var i :| 0 <= i < |e.props| && e.props[i] == (key, v);
      assert e.props[i].0 == key && Same(e.props[i].1, v);
    }
  }

  /** A lookup, restricted to ids that are not stale, finds what holds exactly the value where
      there is an index on the pair, and what the linear scan finds where there is none. */
  lemma LookupFinds(m: Manager, pick: Picker, ents: Entities, stale: set<nat>, next: nat, tag: nat, key: nat, v: Value)
    requires AllExact(m, ents, stale) && ValidPicker(pick)
    requires forall id | id in ents :: id < next && id !in stale
    ensures forall id | id !in stale :: id in ScanByProperty(m, pick, ents, next, tag, key, v) <==>
              id in ents && if Matching(m, tag, key) == {} then Finds(ents[id], tag, key, v) else Holds(ents[id], tag, key, v)
  {
    hide Finds, Holds;
    LinearScanIds(ents, tag, key, v, next);
    FindUnique(m, pick, tag, key);
    var found := Find(m, pick, tag, key);
    if found.Some? {
      assert Exact(m[found.value], ents, stale);
      assert forall id :: id in Lookup(m[found.value], v) <==> Has(m[found.value], v, id);
    }
  }

  /** So indexed lookup is the linear scan exactly when there is no index, or no entity tells
      the two equalities apart. Values without NaN and zeros are never told apart. */
  lemma LookupIsScan(m: Manager, pick: Picker, ents: Entities, stale: set<nat>, next: nat, tag: nat, key: nat, v: Value)
    requires AllExact(m, ents, stale) && ValidPicker(pick)
    requires forall id | id in ents :: id < next && id !in stale
    ensures Ids(ScanByProperty(m, pick, ents, next, tag, key, v)) - stale == Ids(LinearScan(ents, tag, key, v, next))
            <==> Matching(m, tag, key) == {} || forall id | id in ents :: Finds(ents[id], tag, key, v) == Holds(ents[id], tag, key, v)
    ensures Definite(v) ==>
            Ids(ScanByProperty(m, pick, ents, next, tag, key, v)) - stale == Ids(LinearScan(ents, tag, key, v, next))
  {
    hide Finds, Holds, ScanByProperty, LinearScan, AllExact, Definite, Matching;
    LinearScanIds(ents, tag, key, v, next);
    LookupFinds(m, pick, ents, stale, next, tag, key, v);
    if Definite(v) {
      forall id | id in ents
        ensures Finds(ents[id], tag, key, v) == Holds(ents[id], tag, key, v)
      {
        DefiniteFinds(ents[id], tag, key, v);
      }
    }
    var indexed := Ids(ScanByProperty(m, pick, ents, next, tag, key, v)) - stale;
    var scanned := Ids(LinearScan(ents, tag, key, v, next));
    assert forall id :: id in indexed <==> id !in stale && id in ScanByProperty(m, pick, ents, next, tag, key, v);
    assert forall id :: id in scanned <==> id in LinearScan(ents, tag, key, v, next);
  }

  lemma RangeIds(ix: Index, min: Value, max: Value, id: nat)
    ensures id in Range(ix, min, max) <==> exists v :: Has(ix, v, id) && Between(min, v, max)
  {
    hide Between;
    forall v | Has(ix, v, id) && Between(min, v, max)
      ensures id in Range(ix, min, max)
    {
      assert v in ix.tree && id in ix.tree[v];
    }
  }

  /** Indexed range search returns the ids the linear scan returns, unless the range is upside
      down: then the index panics, and only then do the two differ. */
  lemma RangeIsScan(m: Manager, pick: Picker, ents: Entities, next: nat, tag: nat, key: nat, min: Value, max: Value)
    requires AllExact(m, ents, {}) && ValidPicker(pick)
    requires forall id | id in ents :: id < next
    ensures ScanByRange(m, pick, ents, next, tag, key, min, max) == Some(LinearRange(ents, tag, key, min, max, next))
            <==> Compare(min, max) <= 0 || Matching(m, tag, key) == {}
  {
    hide Compare, InRange, Range, LinearRange, Exact;
    FindUnique(m, pick, tag, key);
    var found := Find(m, pick, tag, key);
    if found.Some? && Compare(min, max) <= 0 {
      RangeOfExact(m[found.value], ents, next, min, max);
    }
  }

  lemma RangeOfExact(ix: Index, ents: Entities, next: nat, min: Value, max: Value)
    requires Exact(ix, ents, {})
    requires forall id | id in ents :: id < next
    ensures Range(ix, min, max) == LinearRange(ents, ix.tag, ix.key, min, max, next)
  {
    hide Between, InRange, Range, Exact;
    forall id
      ensures id in Range(ix, min, max) <==> id in LinearRange(ents, ix.tag, ix.key, min, max, next)
    {
      RangeIds(ix, min, max, id);
      RangeMember(ix, ents, id, min, max);
    }
  }

  lemma RangeMember(ix: Index, ents: Entities, id: nat, min: Value, max: Value)
    requires Exact(ix, ents, {})
    ensures (exists v :: Has(ix, v, id) && Between(min, v, max))
            <==> id in ents && InRange(ents[id], ix.tag, ix.key, min, max)
  {
    assert forall v :: Has(ix, v, id) <==> id in ents && Holds(ents[id], ix.tag, ix.key, v);
    hide Between, Has, Exact, InRange, Holds;
    if id in ents {
      RangeOfEntity(ents[id], ix.tag, ix.key, min, max);
    }
  }

  lemma RangeOfEntity(e: Indexed, tag: nat, key: nat, min: Value, max: Value)
    ensures (exists v :: Holds(e, tag, key, v) && Between(min, v, max)) <==> InRange(e, tag, key, min, max)
  {
    hide Between, Matches;
    forall v | Holds(e, tag, key, v) && Between(min, v, max)
      ensures InRange(e, tag, key, min, max)
    {
      var i :| 0 <= i < |e.props| && e.props[i] == (key, v);
      MatchesBetween(e.props[i], key, min, max);
    }
    forall i | tag in e.tags && 0 <= i < |e.props| && Matches(e.props[i], key, min, max)
      ensures exists v :: Holds(e, tag, key, v) && Between(min, v, max)
    {
      MatchesBetween(e.props[i], key, min, max);
      assert e.props[i] == (key, e.props[i].1);
      assert Holds(e, tag, key, e.props[i].1);
    }
  }

  lemma MatchesBetween(prop: (nat, Value), key: nat, min: Value, max: Value)
    ensures Matches(prop, key, min, max) <==> prop.0 == key && Between(min, prop.1, max)
  {
    hide Compare;
    CompareOrder(min, prop.1, min);
  }
}
