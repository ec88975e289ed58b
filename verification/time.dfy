/**
 * struct timeval as a (seconds, microseconds) pair, with the comparison and
 * subtraction macros of <sys/time.h> written out as glibc defines them.
 */
module Time {

  const USEC_PER_SEC: int := 1000000

  datatype TimeVal = TimeVal(sec: int, usec: int)

  /** The all-zero value, which also means "no deadline armed". */
  const ZERO: TimeVal := TimeVal(0, 0)

  /** `tv_sec || tv_usec`: a deadline is armed. */
  predicate IsSet(t: TimeVal)
  {
    t.sec != 0 || t.usec != 0
  }

  /** timercmp(a, b, <): seconds first, microseconds on a tie. */
  predicate Less(a: TimeVal, b: TimeVal)
  {
    if a.sec == b.sec then a.usec < b.usec else a.sec < b.sec
  }

  /** timercmp(a, b, >=). */
  predicate GreaterEq(a: TimeVal, b: TimeVal)
  {
    if a.sec == b.sec then a.usec >= b.usec else a.sec >= b.sec
  }

  /** timersub(a, b, r): field-wise difference with one borrow from the seconds. */
  function Sub(a: TimeVal, b: TimeVal): (d: TimeVal)
  {
    var sec := a.sec - b.sec;
    var usec := a.usec - b.usec;
    if usec < 0 then TimeVal(sec - 1, usec + USEC_PER_SEC) else TimeVal(sec, usec)
  }

  /** The microseconds field is in range, as gettimeofday delivers it. */
  predicate Normal(t: TimeVal)
  {
    0 <= t.usec < USEC_PER_SEC
  }

  /** The instant a timeval denotes, in microseconds. */
  function Micros(t: TimeVal): (us: int)
  {
    t.sec * USEC_PER_SEC + t.usec
  }

  /** On normal values, the two timercmp forms are each other's negation and agree with time order. */
  lemma CompareIsTimeOrder(a: TimeVal, b: TimeVal)
    requires Normal(a) && Normal(b)
    ensures Less(a, b) <==> Micros(a) < Micros(b)
    ensures GreaterEq(a, b) <==> Micros(a) >= Micros(b)
  {
  }

  /** On normal values, timersub yields a normal value that measures the distance between them. */
  lemma SubMeasuresDistance(a: TimeVal, b: TimeVal)
    requires Normal(a) && Normal(b)
    ensures Normal(Sub(a, b))
    ensures Micros(Sub(a, b)) == Micros(a) - Micros(b)
  {
  }

  /** The lexicographic order never has a cycle of "not earlier": !Less is transitive. */
  lemma NotLessTransitive(a: TimeVal, b: TimeVal, c: TimeVal)
    requires !Less(a, b) && !Less(b, c)
    ensures !Less(a, c)
  {
  }
}
