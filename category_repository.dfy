/** The category table, shared by all users: names are unique, and the built-in categories
    can be seeded into it any number of times. */
module CategoryRepo {
  import opened Common
  import opened Seqs
  import Strings
  import opened CategoryEntity

  function IdOf(c: Category): Id { c.id }
  function NameOf(c: Category): string { c.name }
  function HasId(id: Id): Category -> bool { (c: Category) => c.id == id }
  function Named(name: string): Category -> bool { (c: Category) => c.name == name }
  function IsDefault(c: Category): bool { c.isDefault }

  /** `orderBy: { name: 'asc' }`. */
  function NameAsc(a: Category, b: Category): bool { Strings.LexLe(a.name, b.name) }

  lemma NameAscIsPreorder()
    ensures TotalPreorder(NameAsc)
  {
    forall a: Category, b: Category
      ensures NameAsc(a, b) || NameAsc(b, a)
    {
      Strings.LexLeTotal(a.name, b.name);
    }
    forall a: Category, b: Category, c: Category | NameAsc(a, b) && NameAsc(b, c)
      ensures NameAsc(a, c)
    {
      Strings.LexLeTransitive(a.name, b.name, c.name);
    }
  }

  predicate TableValid(categories: seq<Category>, nextId: Id) {
    && KeysUnique(categories, IdOf)
    && IdsBelow(categories, IdOf, nextId)
    && KeysUnique(categories, NameOf)
  }

  /** Some stored category has this name. */
  predicate HasName(categories: seq<Category>, name: string) {
    exists k :: 0 <= k < |categories| && categories[k].name == name
  }

  /** What seeding `ds` into the table `categories` leaves, with `nextId` the next free id:
      each entry is an upsert on its name whose update part is empty, so a name already
      present is left as it is and a new one is added under a fresh id. */
  function SeedFrom(categories: seq<Category>, nextId: Id, ds: seq<CategoryData>): (r: (seq<Category>, Id))
    ensures |categories| <= |r.0| && r.0[..|categories|] == categories
    ensures nextId <= r.1
    decreases |ds|
  {
    if ds == [] then (categories, nextId)
    else if HasName(categories, ds[0].name) then SeedFrom(categories, nextId, ds[1..])
    else
      var r := SeedFrom(categories + [WithId(ds[0], nextId)], nextId + 1, ds[1..]);
      assert (categories + [WithId(ds[0], nextId)])[..|categories|] == categories;
      r
  }

  class CategoryRepository {
    var categories: seq<Category>
    var nextId: Id

    predicate Valid()
      reads this
    {
      TableValid(categories, nextId)
    }

    constructor()
      ensures Valid() && categories == []
    {
      categories := [];
      nextId := 0;
    }

    function FindById(id: Id): (r: Option<Category>)
      reads this
      ensures r.Some? ==> r.value in categories && r.value.id == id
      ensures r.None? ==> forall c :: c in categories ==> c.id != id
    {
      Find(categories, HasId(id))
    }

    function FindByName(name: string): (r: Option<Category>)
      reads this
      ensures r.Some? ==> r.value in categories && r.value.name == name
      ensures r.None? <==> !HasName(categories, name)
    {
      Find(categories, Named(name))
    }

    /** Every category, by name. */
    function FindAll(): (r: seq<Category>)
      reads this
      ensures multiset(r) == multiset(categories)
      ensures Sorted(r, NameAsc)
    {
      NameAscIsPreorder();
      SortBy(categories, NameAsc)
    }

    /** The built-in categories, by name. */
    function FindDefaults(): (r: seq<Category>)
      reads this
      ensures multiset(r) == multiset(Filter(categories, IsDefault))
      ensures forall c :: c in r <==> c in categories && c.isDefault
      ensures Sorted(r, NameAsc)
    {
      NameAscIsPreorder();
      SortBy(Filter(categories, IsDefault), NameAsc)
    }

    /** `create`; the unique name constraint rejects a second category of the same name. */
    method Create(data: CategoryData) returns (r: Option<Category>)
      requires Valid()
      modifies this
      ensures Valid()
      ensures r.None? <==> old(HasName(categories, data.name))
      ensures r.None? ==> categories == old(categories) && nextId == old(nextId)
      ensures r.Some? ==> r.value == WithId(data, old(nextId))
                          && categories == old(categories) + [r.value] && nextId == old(nextId) + 1
    {
      if FindByName(data.name).Some? {
        return None;
      }
      var c := WithId(data, nextId);
      AddKeepsTable(categories, nextId, data);
      categories := categories + [c];
      nextId := nextId + 1;
      r := Some(c);
    }

    /** `seedDefaults`: one upsert per built-in category, in table order. */
    method SeedDefaults()
      requires Valid()
      modifies this
      ensures Valid()
      ensures (categories, nextId) == SeedFrom(old(categories), old(nextId), DEFAULT_CATEGORIES)
    {
      Seed(DEFAULT_CATEGORIES);
    }

    /** The loop of `seedDefaults`: an upsert on the name of each entry of `ds`, in order,
        which adds the entry under a fresh id when no category has its name yet. */
    method Seed(ds: seq<CategoryData>)
      requires Valid()
      modifies this
      ensures Valid()
      ensures (categories, nextId) == SeedFrom(old(categories), old(nextId), ds)
    {
      var i := 0;
      while i < |ds|
        invariant 0 <= i <= |ds|
        invariant Valid()
        invariant SeedFrom(categories, nextId, ds[i..]) == SeedFrom(old(categories), old(nextId), ds)
      {
        var d := ds[i];
        SeedStep(categories, nextId, ds, i);
        if FindByName(d.name).None? {
          categories := categories + [WithId(d, nextId)];
          nextId := nextId + 1;
        }
        i := i + 1;
      }
    }
  }

  /** Adding a category of a new name under the next free id keeps the table valid. */
  lemma AddKeepsTable(categories: seq<Category>, nextId: Id, d: CategoryData)
    requires TableValid(categories, nextId) && !HasName(categories, d.name)
    ensures TableValid(categories + [WithId(d, nextId)], nextId + 1)
  {
  }

  /** One step of the seeding loop: seeding from entry `i` is handling entry `i` and then
      seeding from entry `i + 1`. */
  lemma SeedStep(categories: seq<Category>, nextId: Id, ds: seq<CategoryData>, i: nat)
    requires TableValid(categories, nextId) && i < |ds|
    ensures HasName(categories, ds[i].name) ==>
              SeedFrom(categories, nextId, ds[i..]) == SeedFrom(categories, nextId, ds[i + 1..])
    ensures !HasName(categories, ds[i].name) ==>
              && SeedFrom(categories, nextId, ds[i..])
                 == SeedFrom(categories + [WithId(ds[i], nextId)], nextId + 1, ds[i + 1..])
              && TableValid(categories + [WithId(ds[i], nextId)], nextId + 1)
  {
    assert ds[i..][0] == ds[i] && ds[i..][1..] == ds[i + 1..];
    if !HasName(categories, ds[i].name) {
      AddKeepsTable(categories, nextId, ds[i]);
    }
  }

  /** Seeding keeps the table valid. */
  lemma {:induction false} SeedKeepsValid(categories: seq<Category>, nextId: Id, ds: seq<CategoryData>)
    requires TableValid(categories, nextId)
    ensures var r := SeedFrom(categories, nextId, ds); TableValid(r.0, r.1)
    decreases |ds|
  {
    if ds != [] {
      if HasName(categories, ds[0].name) {
        SeedKeepsValid(categories, nextId, ds[1..]);
      } else {
        SeedKeepsValid(categories + [WithId(ds[0], nextId)], nextId + 1, ds[1..]);
      }
    }
  }

  /** After seeding, every seeded name is in the table. */
  lemma {:induction false} SeedCoversNames(categories: seq<Category>, nextId: Id, ds: seq<CategoryData>)
    ensures forall k :: 0 <= k < |ds| ==> HasName(SeedFrom(categories, nextId, ds).0, ds[k].name)
    decreases |ds|
  {
    if ds != [] {
      var next := if HasName(categories, ds[0].name) then categories
                  else categories + [WithId(ds[0], nextId)];
      var nextId' := if HasName(categories, ds[0].name) then nextId else nextId + 1;
      assert HasName(next, ds[0].name) by {
        if !HasName(categories, ds[0].name) {
          assert next[|categories|].name == ds[0].name;
        }
      }
      SeedCoversNames(next, nextId', ds[1..]);
      var r := SeedFrom(next, nextId', ds).0;
      assert SeedFrom(categories, nextId, ds).0 == SeedFrom(next, nextId', ds[1..]).0;
      forall k | 0 <= k < |ds|
        ensures HasName(SeedFrom(categories, nextId, ds).0, ds[k].name)
      {
        if k == 0 {
          var j :| 0 <= j < |next| && next[j].name == ds[0].name;
          var all := SeedFrom(next, nextId', ds[1..]).0;
          assert all[..|next|] == next;
          assert all[j] == next[j];
        } else {
          assert ds[k] == ds[1..][k - 1];
        }
      }
    }
  }

  /** Seeding names that are all present already changes nothing. */
  lemma {:induction false} SeedPresentIsNoOp(categories: seq<Category>, nextId: Id, ds: seq<CategoryData>)
    requires forall k :: 0 <= k < |ds| ==> HasName(categories, ds[k].name)
    ensures SeedFrom(categories, nextId, ds) == (categories, nextId)
    decreases |ds|
  {
    if ds != [] {
      assert HasName(categories, ds[0].name);
      assert forall k :: 0 <= k < |ds[1..]| ==> ds[1..][k] == ds[k + 1];
      SeedPresentIsNoOp(categories, nextId, ds[1..]);
    }
  }

  /** Seeding is idempotent: a second `seedDefaults` leaves the table as the first left it. */
  lemma SeedIdempotent(categories: seq<Category>, nextId: Id)
    ensures var once := SeedFrom(categories, nextId, DEFAULT_CATEGORIES);
            SeedFrom(once.0, once.1, DEFAULT_CATEGORIES) == once
  {
    var once := SeedFrom(categories, nextId, DEFAULT_CATEGORIES);
    SeedCoversNames(categories, nextId, DEFAULT_CATEGORIES);
    SeedPresentIsNoOp(once.0, once.1, DEFAULT_CATEGORIES);
  }
}
