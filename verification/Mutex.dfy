/** A mutex and the thread that holds it. */
module Mutex {
  datatype Holder = Free | HeldBy(tid: nat)
}
