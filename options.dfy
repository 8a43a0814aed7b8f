/** A value that may be absent. `None` stands for the runtime's END_TSO_QUEUE
    sentinel when the value is a thread, and for a NULL closure otherwise. */
module Options {
  datatype Option<+T> = None | Some(value: T)
}
