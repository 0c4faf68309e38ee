/** The plant service as one object: the plant and comment repositories, the
    three dynamic vocabularies and the browser's key-value store they are
    mirrored to. Every method is one exported service call, taken as one
    atomic step; the simulated latency before it is not modelled. */
module Service {
  import opened Types
  import opened Seqs
  import opened Text
  import opened Catalogue

  const DynamicLocationsKey := "dynamic_locations"
  const DynamicClimatesKey := "dynamic_climates"
  const DynamicUsesKey := "dynamic_uses"

  /** The store key under which a dynamic vocabulary is kept. */
  function Key(c: Category): string
  {
    match c
    case Locations => DynamicLocationsKey
    case Climates => DynamicClimatesKey
    case Uses => DynamicUsesKey
  }

  class PlantService {
    /** The built-in plant records; the vocabularies are always built from these. */
    const initialPlants: seq<Plant>
    const baseLocations: seq<string>
    const baseClimates: seq<string>
    const baseUses: seq<string>
    const allSeasonsStatic: seq<string>
    /** Whether a browser store exists (it does not during server-side rendering). */
    const storageAvailable: bool

    /** The browser store, with each entry already decoded into a list. */
    var store: map<string, seq<string>>
    var dynamicLocations: seq<string>
    var dynamicClimates: seq<string>
    var dynamicUses: seq<string>
    var plants: seq<Plant>
    var comments: seq<Comment>

    function Base(c: Category): seq<string>
    {
      match c
      case Locations => baseLocations
      case Climates => baseClimates
      case Uses => baseUses
    }

    function Dynamic(c: Category): seq<string>
      reads this`dynamicLocations, this`dynamicClimates, this`dynamicUses
    {
      match c
      case Locations => dynamicLocations
      case Climates => dynamicClimates
      case Uses => dynamicUses
    }

    /** `getStoredItems`: the list under `key`, or the empty list when there
        is no store or nothing under that key. */
    function StoredItems(key: string): (items: seq<string>)
      reads this`store
      ensures storageAvailable && key in store ==> items == store[key]
      ensures items != [] ==> storageAvailable && key in store
    {
      if storageAvailable && key in store then store[key] else []
    }

    /** Each dynamic vocabulary equals what the store holds for it, whenever
        there is a store. */
    ghost predicate Valid()
      reads this`store, this`dynamicLocations, this`dynamicClimates, this`dynamicUses
    {
      storageAvailable ==> forall c :: Dynamic(c) == StoredItems(Key(c))
    }

    /** Module load: the plant list starts as the built-in records, the
        comments as the two seed comments, and each dynamic vocabulary is read
        from the store. */
    constructor (initialPlants: seq<Plant>, baseLocations: seq<string>, baseClimates: seq<string>,
                 baseUses: seq<string>, allSeasonsStatic: seq<string>,
                 storageAvailable: bool, store: map<string, seq<string>>, now: Timestamp)
      ensures Valid()
      ensures this.initialPlants == initialPlants && this.baseLocations == baseLocations
      ensures this.baseClimates == baseClimates && this.baseUses == baseUses
      ensures this.allSeasonsStatic == allSeasonsStatic
      ensures this.storageAvailable == storageAvailable && this.store == store
      ensures forall c :: Dynamic(c) == StoredItems(Key(c))
      ensures plants == initialPlants
      ensures comments == SeedComments(now)
    {
      this.initialPlants := initialPlants;
      this.baseLocations := baseLocations;
      this.baseClimates := baseClimates;
      this.baseUses := baseUses;
      this.allSeasonsStatic := allSeasonsStatic;
      this.storageAvailable := storageAvailable;
      this.store := store;
      dynamicLocations :=
        if storageAvailable && DynamicLocationsKey in store then store[DynamicLocationsKey] else [];
      dynamicClimates :=
        if storageAvailable && DynamicClimatesKey in store then store[DynamicClimatesKey] else [];
      dynamicUses :=
        if storageAvailable && DynamicUsesKey in store then store[DynamicUsesKey] else [];
      plants := initialPlants;
      comments := SeedComments(now);
    }

    /** `setStoredItems`: writes the list under `key` when there is a store. */
    method SetStoredItems(key: string, items: seq<string>)
      modifies this`store
      ensures store == if storageAvailable then old(store)[key := items] else old(store)
      ensures storageAvailable ==> StoredItems(key) == items
      ensures forall k :: k != key ==> StoredItems(k) == old(StoredItems(k))
    {
      if storageAvailable {
        store := store[key := items];
      }
    }

    method SetDynamic(c: Category, items: seq<string>)
      modifies this`dynamicLocations, this`dynamicClimates, this`dynamicUses
      ensures Dynamic(c) == items
      ensures forall d :: d != c ==> Dynamic(d) == old(Dynamic(d))
    {
      match c
      case Locations => dynamicLocations := items;
      case Climates => dynamicClimates := items;
      case Uses => dynamicUses := items;
    }

    /** Replaces one dynamic list and writes it to the store under its key. */
    method Publish(c: Category, items: seq<string>)
      requires Valid()
      modifies this`dynamicLocations, this`dynamicClimates, this`dynamicUses, this`store
      ensures Valid()
      ensures Dynamic(c) == items
      ensures store == if storageAvailable then old(store)[Key(c) := items] else old(store)
      ensures forall d :: d != c ==> Dynamic(d) == old(Dynamic(d))
    {
      SetDynamic(c, items);
      SetStoredItems(Key(c), items);
    }

    /** `addDynamicLocation`, `addDynamicClimate`, `addDynamicUse`: appends a
        value the list does not hold yet and writes the list to the store; a
        value already there changes nothing. */
    method AddDynamic(c: Category, v: string)
      requires Valid()
      modifies this`dynamicLocations, this`dynamicClimates, this`dynamicUses, this`store
      ensures Valid()
      ensures v in old(Dynamic(c)) ==> Dynamic(c) == old(Dynamic(c)) && store == old(store)
      ensures v !in old(Dynamic(c)) ==> Dynamic(c) == old(Dynamic(c)) + [v]
      ensures v !in old(Dynamic(c)) ==>
                store == if storageAvailable then old(store)[Key(c) := Dynamic(c)] else old(store)
      ensures forall d :: d != c ==> Dynamic(d) == old(Dynamic(d))
      ensures v in Dynamic(c)
      ensures NoDuplicates(old(Dynamic(c))) ==> NoDuplicates(Dynamic(c))
    {
      if v !in Dynamic(c) {
        Publish(c, Dynamic(c) + [v]);
      }
    }

    /** `deleteDynamicLocation`, `deleteDynamicClimate`, `deleteDynamicUse`:
        removes every occurrence of the value and writes the list to the store,
        whether or not the value was there. */
    method DeleteDynamic(c: Category, v: string)
      requires Valid()
      modifies this`dynamicLocations, this`dynamicClimates, this`dynamicUses, this`store
      ensures Valid()
      ensures Dynamic(c) == Without(old(Dynamic(c)), v)
      ensures v !in Dynamic(c)
      ensures forall x :: x in Dynamic(c) <==> x in old(Dynamic(c)) && x != v
      ensures store == if storageAvailable then old(store)[Key(c) := Dynamic(c)] else old(store)
      ensures forall d :: d != c ==> Dynamic(d) == old(Dynamic(d))
    {
      Publish(c, Without(Dynamic(c), v));
    }

    /** `getAllLocationsForFilters`, `getAllClimatesForFilters`,
        `getAllUsesForFilters`: reloads an empty dynamic list from the store
        when the store has an entry for it, then returns the base values, the
        built-in plants' values and the dynamic values, without repeats, in
        ascending order. Under `Valid` the reload changes nothing. */
    method GetAllForFilters(c: Category) returns (r: seq<string>)
      requires Valid()
      modifies this`dynamicLocations, this`dynamicClimates, this`dynamicUses
      ensures Valid()
      ensures Dynamic(c) == if storageAvailable && old(Dynamic(c)) == [] && Key(c) in store
                            then store[Key(c)] else old(Dynamic(c))
      ensures Dynamic(c) == old(Dynamic(c))
      ensures forall d :: d != c ==> Dynamic(d) == old(Dynamic(d))
      ensures r == Vocabulary(Base(c), PlantValues(c, initialPlants), Dynamic(c))
      ensures StrictlySorted(r) && NoDuplicates(r)
      ensures forall x :: x in r <==> x in Base(c) || x in PlantValues(c, initialPlants) || x in Dynamic(c)
    {
      if storageAvailable && Dynamic(c) == [] && Key(c) in store {
        SetDynamic(c, StoredItems(Key(c)));
      }
      r := Vocabulary(Base(c), PlantValues(c, initialPlants), Dynamic(c));
    }

    /** `getAllSeasonsForFilters`: the fixed season list. */
    method GetAllSeasonsForFilters() returns (r: seq<string>)
      ensures r == allSeasonsStatic
    {
      r := allSeasonsStatic;
    }

    /** `getPlants`: the current plants that pass every active filter, in
        catalogue order. */
    method GetPlants(filters: Option<FilterValues>) returns (r: seq<Plant>)
      ensures r == Filter(plants, Matching(filters))
      ensures IsSubsequence(r, plants)
      ensures forall p :: p in r <==> p in plants && Matches(filters, p)
    {
      r := ListPlants(plants, filters);
      ListPlantsExact(plants, filters);
    }

    /** `getPlantById`: the first current plant with that id, if any. */
    method GetPlantById(id: string) returns (r: Option<Plant>)
      ensures r.None? <==> forall p :: p in plants ==> p.id != id
      ensures r.Some? ==> r.value in plants && r.value.id == id
      ensures r.Some? ==> exists i :: 0 <= i < |plants| && plants[i] == r.value
                                   && forall j :: 0 <= j < i ==> plants[j].id != id
    {
      r := FindPlant(plants, id);
    }

    /** `addPlant`: appends a record built from the draft and the clock and
        returns it; when no plant already had that id, looking the id up
        finds exactly this record. */
    method AddPlant(d: PlantDraft, now: nat) returns (p: Plant)
      modifies this`plants
      ensures old(Valid()) ==> Valid()
      ensures p == NewPlant(d, now)
      ensures plants == old(plants) + [p]
      ensures (forall q :: q in old(plants) ==> q.id != p.id) ==> FindPlant(plants, p.id) == Some(p)
    {
      p := NewPlant(d, now);
      plants := plants + [p];
    }

    /** `updatePlant`: replaces the first plant with that id by the merged
        record and returns it; an unknown id is an error and changes nothing. */
    method UpdatePlant(id: string, u: PlantUpdate, now: Timestamp) returns (r: Result<Plant, ServiceError>)
      modifies this`plants
      ensures old(Valid()) ==> Valid()
      ensures r.Failure? <==> forall p :: p in old(plants) ==> p.id != id
      ensures r.Failure? ==> r.error == NotFound(id) && plants == old(plants)
      ensures r.Success? ==>
                var i := FindIndex(old(plants), id).value;
                r.value == ApplyUpdate(old(plants)[i], u, now) && plants == old(plants)[i := r.value]
      ensures r.Success? ==> FindPlant(plants, id) == Some(r.value)
    {
      var idx := FindIndex(plants, id);
      if idx.None? {
        r := Failure(NotFound(id));
      } else {
        var updated := ApplyUpdate(plants[idx.value], u, now);
        plants := plants[idx.value := updated];
        r := Success(updated);
        assert plants[idx.value] == updated;
        assert forall j :: 0 <= j < idx.value ==> plants[j] == old(plants)[j];
        FindIndexAt(plants, id, idx.value);
      }
    }

    /** `deletePlant`: removes every plant with that id and every comment on it. */
    method DeletePlant(id: string)
      modifies this`plants, this`comments
      ensures old(Valid()) ==> Valid()
      ensures plants == WithoutPlant(old(plants), id)
      ensures comments == WithoutCommentsOf(old(comments), id)
      ensures FindPlant(plants, id) == None
      ensures CommentsNewestFirst(comments, id) == []
      ensures (forall p :: p in old(plants) ==> p.id != id) ==> plants == old(plants)
    {
      var ps := WithoutPlant(plants, id);
      var cs := WithoutCommentsOf(comments, id);
      DeletedPlantIsGone(plants, comments, id);
      SetRecords(ps, cs);
    }

    /** Replaces both repositories; the dynamic lists and the store are untouched. */
    method SetRecords(ps: seq<Plant>, cs: seq<Comment>)
      modifies this`plants, this`comments
      ensures old(Valid()) ==> Valid()
      ensures plants == ps && comments == cs
    {
      plants, comments := ps, cs;
    }

    /** `getCommentsByPlantId`: the plant's comments, newest first. */
    method GetCommentsByPlantId(plantId: string) returns (r: seq<Comment>)
      ensures r == CommentsNewestFirst(comments, plantId)
      ensures NewestFirst(r)
      ensures multiset(r) == multiset(Filter(comments, OnPlant(plantId)))
      ensures forall c :: c in r <==> c in comments && c.plantId == plantId
    {
      r := CommentsNewestFirst(comments, plantId);
    }

    /** `addComment`: appends a comment stamped with the clock and returns it. */
    method AddComment(plantId: string, userId: string, userName: string, text: string, now: nat)
      returns (c: Comment)
      modifies this`comments
      ensures old(Valid()) ==> Valid()
      ensures c == NewComment(plantId, userId, userName, text, now)
      ensures comments == old(comments) + [c]
    {
      c := NewComment(plantId, userId, userName, text, now);
      comments := comments + [c];
    }
  }

  /** The plant a known index holds is the one the lookup finds, when no
      earlier plant has its id. */
  lemma FindIndexAt(ps: seq<Plant>, id: string, i: nat)
    requires i < |ps| && ps[i].id == id
    requires forall j :: 0 <= j < i ==> ps[j].id != id
    ensures FindIndex(ps, id) == Some(i)
    ensures FindPlant(ps, id) == Some(ps[i])
  {
  }

  /** Adding a dynamic value twice leaves it once in the vocabulary, and the
      second listing equals the first. */
  method AddTwiceThenList(svc: PlantService, c: Category, v: string) returns (first: seq<string>, second: seq<string>)
    requires svc.Valid()
    modifies svc
    ensures v in first && NoDuplicates(first)
    ensures second == first
  {
    svc.AddDynamic(c, v);
    first := svc.GetAllForFilters(c);
    svc.AddDynamic(c, v);
    second := svc.GetAllForFilters(c);
  }
}
