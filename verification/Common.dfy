/** Values shared by the modules of the project. */
module Common {
  datatype Option<+T> = None | Some(value: T)

  datatype Result<+T, +E> = Ok(value: T) | Err(error: E)

  datatype OrderStatus = Pending | Open | PartiallyFilled | Filled | Cancelled | Rejected | Expired {
    /** Removes the order from the open set without filling it. */
    predicate IsTerminal() { Cancelled? || Rejected? || Expired? }

    /** Removes the order from the live set, `Filled` included. */
    predicate IsFinal() { IsTerminal() || Filled? }
  }
}
