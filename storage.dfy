/**
 * The browser key-value store, as the service modules see one of its keys:
 * nothing there (or an empty string, which the services treat the same way),
 * text that does not parse as the expected list, or a parsed list.
 */
module Storage {

  /** Milliseconds since the epoch. */
  type Timestamp = int

  datatype Slot<T> = Absent | Unparseable | Stored(items: seq<T>) {
    /** The list a service works on: the stored one, else the empty list. */
    function Contents(): seq<T> {
      if Stored? then items else []
    }
  }
}
