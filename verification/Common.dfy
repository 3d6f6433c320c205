/** Vocabulary shared by the models of Pulse's services. */
module Common {

  datatype Option<+T> = None | Some(value: T)

  /** A PostgreSQL timestamp: microseconds since the epoch, in UTC. */
  type Time = int

  const SECOND: int := 1_000_000
  const MINUTE: int := 60 * SECOND
  const DAY: int := 1440 * MINUTE

  lemma SubsetCount<T>(a: set<T>, b: set<T>)
    requires a <= b
    ensures |a| <= |b| && |b - a| == |b| - |a| && (|a| == |b| <==> a == b)
  {
    assert b == a + (b - a);
  }
}
