/** What becomes of a request to a server that may fail before or after it has taken effect. */
module Faults {

  /** Whether the request took effect, and whether that was answered; a reliable server answers. */
  method Luck(reliable: bool) returns (done: bool, answered: bool)
    ensures (answered ==> done) && (reliable ==> answered)
  {
    done, answered := *, *;
    answered := answered || reliable;
    done := done || answered;
  }
}
