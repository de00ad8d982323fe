/**
 * The two configuration states of a node and the two predicates the
 * configstate API uses to judge a requested change of state.
 */
module States {

  const Configuring: string := "configuring"
  const Configured: string := "configured"

  /** A state value the configstate API accepts in a request. */
  predicate IsStateValue(s: string) {
    s == Configuring || s == Configured
  }

  /** A request that asks for the state the node is already in. */
  predicate NoOpStateChange(from: string, to: string) {
    from == to
  }

  /** The one supported transition: configuring to configured. */
  predicate ValidStateChange(from: string, to: string) {
    from == Configuring && to == Configured
  }

  /** A change is a no-op exactly when it names the same state twice. */
  lemma NoOpIsSameState(from: string, to: string)
    ensures NoOpStateChange(from, to) <==> from == to
    ensures NoOpStateChange(to, to)
  {
  }

  /**
   * Only the forward change is valid: it is never a no-op, and the reverse
   * change, configured to configuring, is not valid.
   */
  lemma OnlyForwardChangeIsValid(from: string, to: string)
    ensures ValidStateChange(from, to) <==> from == Configuring && to == Configured
    ensures ValidStateChange(from, to) ==> !NoOpStateChange(from, to)
    ensures ValidStateChange(from, to) ==> IsStateValue(from) && IsStateValue(to)
    ensures !ValidStateChange(Configured, Configuring)
  {
  }

  /**
   * Over the two state values every requested change falls in exactly one
   * class: a no-op, the valid forward change, or the unsupported reverse.
   */
  lemma StateValueChangesClassified(from: string, to: string)
    requires IsStateValue(from) && IsStateValue(to)
    ensures NoOpStateChange(from, to) || ValidStateChange(from, to)
            || (from == Configured && to == Configuring)
    ensures !(NoOpStateChange(from, to) && ValidStateChange(from, to))
  {
  }

}
