/** Patch documents, as normalization leaves them. */
module Documents {
  import opened Values
  import opened Literals

  datatype Key = FieldKey(field: FieldRef) | MapEntryKey(key: MapKey) | IndexKey(index: int) | UnsetKey

  datatype Selector = ByKey(key: Key) | Range | Append | EveryEntry | OneofMember | UnsetSelector

  datatype Want = WantExists(exist: bool) | WantValue(value: Lit) | WantUnset

  datatype Operation =
    | Remove
    | Assign(value: Lit)
    | Insert(value: Lit)
    | Nest(delta: seq<Entry>)
    | TestThat(want: Want)
    | Move
    | Copy
    | UnsetOperation

  datatype Scope = Container | Targets(selectors: seq<Selector>) | UnsetScope

  // `skip` is on_missing == ON_MISSING_SKIP.
  datatype Entry = Entry(path: seq<Key>, scope: Scope, op: Operation, skip: bool)

  datatype Document = Document(messageType: string, delta: seq<Entry>)
}
