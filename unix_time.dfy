/** timestamp_to_unix of google/intra.py: a timestamp's nanosecond count
    divided by the divisor of the requested unit, looked up in a fixed table. */
module UnixTime {
  import opened Wrappers

  /** The error a dictionary lookup with a missing key raises. */
  datatype KeyError = KeyError(key: string)

  /** Nanoseconds per unit, keyed by pandas' unit abbreviations. */
  const Divisors: map<string, nat> := map["s" := 1000000000, "ms" := 1000000, "us" := 1000, "ns" := 1]

  /** The timestamp `nanos` (nanoseconds since the epoch) expressed in `unit`,
      computed exactly; an unknown unit raises KeyError. */
  function TimestampToUnix(nanos: int, unit: string := "s"): (r: Result<real, KeyError>)
    ensures r.Success? <==> unit in {"s", "ms", "us", "ns"}
    ensures r.Failure? ==> r.error == KeyError(unit)
    ensures r.Success? ==> Divisors[unit] > 0 && r.value * (Divisors[unit] as real) == nanos as real
  {
    if unit in Divisors then Success(nanos as real / Divisors[unit] as real) else Failure(KeyError(unit))
  }

  /** The table itself: one second is 10^9 ns, a millisecond 10^6, a microsecond 10^3. */
  lemma DivisorTable()
    ensures Divisors.Keys == {"s", "ms", "us", "ns"}
    ensures Divisors["s"] == 1000000000 && Divisors["ms"] == 1000000
    ensures Divisors["us"] == 1000 && Divisors["ns"] == 1
  {
  }

  /** Without a unit the timestamp comes back in seconds, as the request
      parameters on line 65 use it. */
  lemma DefaultUnitIsSeconds(nanos: int)
    ensures TimestampToUnix(nanos).Success?
    ensures TimestampToUnix(nanos).value * 1000000000.0 == nanos as real
  {
  }

  /** With unit 'ns' the nanosecond count comes back unchanged. */
  lemma NanosUnchanged(nanos: int)
    ensures TimestampToUnix(nanos, "ns") == Success(nanos as real)
  {
  }

  /** Each unit in the table is a thousand times finer than the one before it. */
  lemma UnitsScaleByThousand(nanos: int)
    ensures TimestampToUnix(nanos, "ms").value == 1000.0 * TimestampToUnix(nanos, "s").value
    ensures TimestampToUnix(nanos, "us").value == 1000.0 * TimestampToUnix(nanos, "ms").value
    ensures TimestampToUnix(nanos, "ns").value == 1000.0 * TimestampToUnix(nanos, "us").value
  {
    var s := TimestampToUnix(nanos, "s").value;
    var ms := TimestampToUnix(nanos, "ms").value;
    var us := TimestampToUnix(nanos, "us").value;
    assert s * 1000000000.0 == nanos as real;
    assert ms * 1000000.0 == nanos as real;
    assert us * 1000.0 == nanos as real;
  }
}
