/** Properties of the store's insertion and lookup. */
module StoreProperties {
  import opened Laptops
  import opened Store

  /**
   * Saving a record under a new id stores it under that id; a second save
   * under the same id is refused and changes nothing.
   */
  lemma SaveSameIdTwice(data: map<string, Laptop>, laptop: Laptop, again: Laptop)
    requires laptop.id !in data && again.id == laptop.id
    ensures var first := SaveSpec(data, laptop);
            && first.result == Saved
            && laptop.id in first.data && first.data[laptop.id] == laptop
            && SaveSpec(first.data, again) == SaveOutcome(first.data, Failed(AlreadyExistsException(ALREADY_EXISTS_MESSAGE)))
  {
  }

  /**
   * The store's round trip: after saving a record under a new id, looking
   * that id up finds the record, and saving under it again is refused.
   */
  method SaveThenFind(store: InMemoryLaptopStore, laptop: Laptop, again: Laptop)
    returns (found: Option<Laptop>, second: SaveResult)
    requires store.Valid() && laptop.id !in store.data && again.id == laptop.id
    modifies store
    ensures found == Some(laptop)
    ensures second == Failed(AlreadyExistsException(ALREADY_EXISTS_MESSAGE))
    ensures store.data == old(store.data)[laptop.id := laptop]
  {
    var first := store.Save(laptop);
    found := store.Find(laptop.id);
    second := store.Save(again);
  }
}
