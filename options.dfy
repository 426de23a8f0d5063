/** Optional values and results, standing in for Java's nullable
    references and thrown exceptions. */
module Options {

  /** A nullable reference: `None` is Java's null. */
  datatype Option<T> = None | Some(value: T)

  /** The exceptions the modelled code throws or propagates. */
  datatype Error =
    | IllegalState      // java.lang.IllegalStateException
    | NullPointer       // java.lang.NullPointerException
    | ClassCast         // java.lang.ClassCastException
    | RejectedExecution // java.util.concurrent.RejectedExecutionException
    | ServiceRegistry   // org.jboss.msc.service.ServiceRegistryException

  /** A call that returns a value or throws. */
  datatype Result<T> = Ok(value: T) | Fail(error: Error)

  /** A call that returns nothing or throws. */
  datatype Outcome = Done | Threw(error: Error)
}
