/** The records exchanged with the Cloudflare DNS API (src/types.rs). */
module Types {
  import opened Wrappers

  /** An "A" record as the zone listing reports it: an opaque id, the record name and its address. */
  datatype Record = Record(id: string, name: string, content: string)

  /** A patch that sets the address of the record with the given id. */
  datatype RecordUpdate = RecordUpdate(id: string, content: string)

  /** A new "A" record to be created. */
  datatype RecordCreate = RecordCreate(name: string, content: string)

  /** The body of a batch write; either list may be absent. */
  datatype Batch = Batch(patches: Option<seq<RecordUpdate>>, posts: Option<seq<RecordCreate>>)
}
