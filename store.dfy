/** The Redis store behind `add_key_value_redis`, `get_value_redis` and
    `delete_key_redis`: a map from key to value and the expiry it was set with.
    Expiry is recorded, not enforced. */
module KeyValueStore {
  import opened Wrappers

  datatype Entry = Entry(value: string, expire: nat)

  type Db = map<string, Entry>

  /** `get_value_redis(key)`: the stored value, or `None`. */
  function Read(db: Db, key: string): (r: Option<string>)
    ensures r.Some? <==> key in db
    ensures r.Some? ==> r.value == db[key].value
  {
    if key in db then Some(db[key].value) else None
  }

  class Redis {
    var data: Db

    constructor ()
      ensures data == map[]
    {
      data := map[];
    }

    /** `add_key_value_redis(key, value, expire)`. When `fails` the client
        raises and nothing is written. */
    method Set(key: string, value: string, expire: nat, fails: bool) returns (ok: bool)
      modifies this
      ensures ok == !fails
      ensures data == if fails then old(data) else old(data)[key := Entry(value, expire)]
    {
      ok := !fails;
      if ok {
        data := data[key := Entry(value, expire)];
      }
    }

    method Get(key: string) returns (v: Option<string>)
      ensures v == Read(data, key)
    {
      v := Read(data, key);
    }

    /** `delete_key_redis(key)`; deleting an absent key changes nothing. */
    method Delete(key: string)
      modifies this
      ensures data == old(data) - {key}
    {
      data := data - {key};
    }
  }
}
