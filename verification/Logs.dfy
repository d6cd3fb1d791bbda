/** When a filter accepts a log (src/logs.ts): position by position, and as a meaning over the whole topics. */
module Logs {
  import opened Options
  import opened Texts

  datatype Log = Log(address: string, topics: seq<string>, data: string)

  /** What one position asks for: nothing, or one of some topics. */
  datatype Wanted = Any | OneOf(options: seq<string>)

  /** `address` is `None` when the filter names none; a list that is present but empty matches nothing. */
  datatype LogFilter = LogFilter(address: Option<seq<string>>, topics: seq<Wanted>)

  predicate SomeEqual(options: seq<string>, actual: string) {
    exists i | 0 <= i < |options| :: Lower(options[i]) == Lower(actual)
  }

  /** The positions from `position` on, checked one by one. */
  predicate TopicsFrom(log: Log, topics: seq<Wanted>, position: nat)
    decreases |topics| - position
  {
    if position >= |topics| then true
    else if topics[position].Any? then TopicsFrom(log, topics, position + 1)
    else if position >= |log.topics| then false
    else if topics[position].options == [] then TopicsFrom(log, topics, position + 1)
    else if !SomeEqual(topics[position].options, log.topics[position]) then false
    else TopicsFrom(log, topics, position + 1)
  }

  predicate LogMatches(log: Log, filter: LogFilter) {
    if filter.address.Some? && !SomeEqual(filter.address.value, log.address) then false
    else TopicsFrom(log, filter.topics, 0)
  }

  /**
   * A log matches exactly when its address is wanted and every position that asks for something
   * has a topic there, one of those asked for when any are listed.
   */
  lemma LogMatchesMeaning(log: Log, filter: LogFilter)
    ensures LogMatches(log, filter) <==>
            && (filter.address.Some? ==> SomeEqual(filter.address.value, log.address))
            && forall i | 0 <= i < |filter.topics| && filter.topics[i].OneOf? ::
                 && i < |log.topics|
                 && (filter.topics[i].options != [] ==> SomeEqual(filter.topics[i].options, log.topics[i]))
  {
    TopicsFromMeaning(log, filter.topics, 0);
  }

  lemma {:induction false} TopicsFromMeaning(log: Log, topics: seq<Wanted>, position: nat)
    ensures TopicsFrom(log, topics, position) <==>
            forall i | position <= i < |topics| && topics[i].OneOf? ::
              && i < |log.topics|
              && (topics[i].options != [] ==> SomeEqual(topics[i].options, log.topics[i]))
    decreases |topics| - position
  {
    if position < |topics| {
      TopicsFromMeaning(log, topics, position + 1);
    }
  }
}
