/**
 * The external full-text index, seen through the three calls the core
 * makes on it: add, remove and delete-collection. One Index object is
 * the collection named after the `post` table. A document is keyed by
 * the row id and replaced wholesale on every add; removing an id that
 * is not there is not an error. How the engine ranks a query is not
 * modelled: a query's answer comes into the model as a parameter.
 */
module SearchIndex {
  import opened Models

  class Index {
    const collection: string
    var docs: map<int, Fields>

    constructor (collection: string)
      ensures this.collection == collection && docs == map[]
    {
      this.collection := collection;
      docs := map[];
    }

    /** `add_to_index`: overwrite, never duplicate. */
    method Add(id: int, fields: Fields)
      modifies this
      ensures docs == old(docs)[id := fields]
    {
      docs := docs[id := fields];
    }

    /** `remove_from_index`: a missing id leaves the index as it was. */
    method Remove(id: int)
      modifies this
      ensures docs == old(docs) - {id}
    {
      docs := docs - {id};
    }

    /** `delete_index`: wipe the collection. */
    method DeleteCollection()
      modifies this
      ensures docs == map[]
    {
      docs := map[];
    }
  }
}
