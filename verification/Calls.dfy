/**
 * A request and what may come of it: the view of `Channel.Send` that the protocols built on the
 * channel rely on. `AckProtocol` shows that every acknowledged send of the channel behaves so.
 */
module Calls {
  import opened Prelude

  datatype Outcome<+R> = Answered(reply: R) | TimedOut | Closed | NotSent

  /** `answers` are the replies the other side has written for this very request. */
  datatype Call<+Q, R> = Call(request: Q, answers: set<R>, outcome: Option<Outcome<R>>)

  /** An answer that came back was written for this request. */
  ghost predicate Sound<Q, R>(c: Call<Q, R>) {
    c.outcome.Some? && c.outcome.value.Answered? ==> c.outcome.value.reply in c.answers
  }

  /** The request never changes, answers accumulate, and the outcome is decided once. */
  ghost predicate Next<Q, R>(c: Call<Q, R>, c': Call<Q, R>) {
    && c'.request == c.request
    && c.answers <= c'.answers
    && (c.outcome.Some? ==> c'.outcome == c.outcome)
    && (Sound(c) ==> Sound(c'))
  }
}
