/**
 * XCom, the per-run key/value store the tasks use to hand datasets to each
 * other (`ti.xcom_push` / `ti.xcom_pull(key=...)`). It holds tables directly:
 * the `to_json` / `read_json` round trip around it is not modelled.
 */
module XCom {
  import opened Wrappers
  import opened Dataset

  class XComStore {
    /** The value last pushed under each key in this run. */
    var entries: map<string, Table>

    /** A run starts with an empty store. */
    constructor ()
      ensures entries == map[]
    {
      entries := map[];
    }

    /** `ti.xcom_push(key=key, value=value)`: overwrites whatever the key held. */
    method Push(key: string, value: Table)
      modifies this
      ensures entries == old(entries)[key := value]
    {
      entries := entries[key := value];
    }

    /** `ti.xcom_pull(key=key)`: the value most recently pushed under `key`, or `None`. */
    method Pull(key: string) returns (r: Option<Table>)
      ensures key in entries ==> r == Some(entries[key])
      ensures key !in entries ==> r == None
    {
      if key in entries {
        r := Some(entries[key]);
      } else {
        r := None;
      }
    }
  }
}
