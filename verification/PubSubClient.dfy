/** The publish call of the Pub/Sub client: message attributes are its keyword arguments. */
module PubSubClient {

  /** Parameters that the call fills already. */
  const TAKEN := {"self", "topic", "data"}

  /** Its other parameters: an attribute of one of these names is an option of the call, and is not stored. */
  const OPTIONS := {"ordering_key", "retry", "timeout"}

  function OptionsIn(attributes: map<string, string>): map<string, string> {
    map k | k in attributes && k in OPTIONS :: attributes[k]
  }

  /** The call goes through, for a client that takes certain options. */
  predicate GoesThrough(takes: map<string, string> -> bool, attributes: map<string, string>) {
    attributes.Keys !! TAKEN && takes(OptionsIn(attributes))
  }
}
