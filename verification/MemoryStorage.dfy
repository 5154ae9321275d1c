/**
 The in-memory blob storage of crates/papermake-registry/src/storage/blob_storage.rs: the map that
 every other part of the model takes storage to be. Listings come in key order, so they are a
 function of the stored keys.
 */
module MemoryStorage {
  import opened Prelude
  import opened Sorting
  import opened Strings

  type Bytes = seq<bv8>

  /** The keys of a map that start with a prefix, in order. */
  ghost predicate Listing<T>(data: map<string, T>, prefix: string, keys: seq<string>) {
    Ascends(keys, LexLess) && forall k :: k in keys <==> k in data && prefix <= k
  }

  /** A store has one listing for each prefix. */
  lemma ListingUnique<T>(data: map<string, T>, prefix: string, a: seq<string>, b: seq<string>)
    requires Listing(data, prefix, a) && Listing(data, prefix, b)
    ensures a == b
  {
    LexIsStrict();
    AscendsUnique(a, b, LexLess);
  }

  class MemoryStorage {
    var data: map<string, Bytes>

    constructor ()
      ensures data == map[]
    {
      data := map[];
    }

    method Put(key: string, bytes: Bytes)
      modifies this
      ensures data == old(data)[key := bytes]
    {
      data := data[key := bytes];
    }

    method Get(key: string) returns (r: Option<Bytes>)
      ensures r == if key in data then Some(data[key]) else None
    {
      r := if key in data then Some(data[key]) else None;
    }

    /** Deleting an absent key is not an error. */
    method Delete(key: string)
      modifies this
      ensures data == old(data) - {key}
    {
      data := data - {key};
    }

    method ListKeys(prefix: string) returns (keys: seq<string>)
      ensures Listing(data, prefix, keys)
    {
      var rest := data.Keys;
      keys := [];
      while rest != {}
        invariant rest <= data.Keys && Apart(keys, LexLess)
        invariant forall k :: k in keys <==> k in data && k !in rest && prefix <= k
        decreases rest
      {
        var key := Pick(rest);
        LexIsStrict();
        if prefix <= key {
          keys := keys + [key];
        }
        rest := rest - {key};
      }
      LexIsStrict();
      SortAscends(keys, LexLess);
      keys := Sort(keys, LexLess);
    }

    /** One delete after another: exactly the named keys are gone, whether they were there or not. */
    method DeleteMany(keys: seq<string>)
      modifies this
      ensures forall k :: k in data <==> k in old(data) && k !in keys
      ensures forall k :: k in data ==> data[k] == old(data)[k]
    {
      for i := 0 to |keys|
        invariant forall k :: k in data <==> k in old(data) && k !in keys[..i]
        invariant forall k :: k in data ==> data[k] == old(data)[k]
      {
        assert keys[..i + 1] == keys[..i] + [keys[i]];
        Delete(keys[i]);
      }
      assert keys[..|keys|] == keys;
    }
  }
}
