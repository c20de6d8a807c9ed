/** The authentication trace span, modelled as the record of the calls made
    on it, and the lifecycle a span must follow: prepared, started, any number
    of tags, finished exactly once. */
module Tracing {
  import opened Wrappers
  import opened AuthTypes

  /** The operation name the authentication filter span is prepared with. */
  datatype SpanOperationName = FilterAuth

  /** The tag keys the authentication span is tagged with. */
  datatype SpanTagKey = AuthSuccess | AuthError

  /** One call on a span. */
  datatype SpanEvent =
    | Start
    | Tag(key: SpanTagKey, value: bool)
    | TagAsFailed(cause: Throwable)
    | Finish

  /** A prepared span: its operation name, the headers it was prepared from
      and the calls made on it, in order. */
  datatype Span = Span(operation: SpanOperationName, headers: Headers, events: seq<SpanEvent>)

  datatype SpanState = Prepared | Started | Finished

  /** The state a span is in after one more call, or None when that call is
      not allowed in the current state. */
  function Step(s: SpanState, e: SpanEvent): Option<SpanState> {
    match (s, e)
    case (Prepared, Start) => Some(Started)
    case (Started, Tag(_, _)) => Some(Started)
    case (Started, TagAsFailed(_)) => Some(Started)
    case (Started, Finish) => Some(Finished)
    case _ => None
  }

  /** The state a span reaches after the calls `events`, or None when one of
      them breaks the lifecycle. */
  function Replay(s: SpanState, events: seq<SpanEvent>): Option<SpanState>
    decreases |events|
  {
    if events == [] then Some(s)
    else match Step(s, events[0])
      case None => None
      case Some(next) => Replay(next, events[1..])
  }

  /** A span whose calls follow the lifecycle from preparation to finish. */
  predicate IsComplete(span: Span) {
    Replay(Prepared, span.events) == Some(Finished)
  }

  function Starts(events: seq<SpanEvent>): nat {
    if events == [] then 0 else (if events[0].Start? then 1 else 0) + Starts(events[1..])
  }

  function Finishes(events: seq<SpanEvent>): nat {
    if events == [] then 0 else (if events[0].Finish? then 1 else 0) + Finishes(events[1..])
  }

  /** Calls that take a started span to finished hold no further start, one
      finish, and that finish is the last call. */
  lemma {:induction false} StartedToFinished(events: seq<SpanEvent>)
    requires Replay(Started, events) == Some(Finished)
    ensures |events| > 0 && events[|events| - 1].Finish?
    ensures Starts(events) == 0 && Finishes(events) == 1
  {
    assert events != [];
    match events[0]
    case Finish =>
      assert Replay(Finished, events[1..]) == Some(Finished);
      NothingAfterFinish(events[1..]);
    case Tag(_, _) =>
      StartedToFinished(events[1..]);
    case TagAsFailed(_) =>
      StartedToFinished(events[1..]);
  }

  /** A finished span accepts no further call. */
  lemma NothingAfterFinish(events: seq<SpanEvent>)
    requires Replay(Finished, events) == Some(Finished)
    ensures events == []
  {
  }

  /** A completed span was started first, started once, finished once, and
      finished last: no span is left started but unfinished. */
  lemma {:induction false} CompletedStartsAndFinishesOnce(span: Span)
    requires IsComplete(span)
    ensures |span.events| > 0 && span.events[0].Start? && span.events[|span.events| - 1].Finish?
    ensures Starts(span.events) == 1 && Finishes(span.events) == 1
  {
    var events := span.events;
    assert events != [];
    assert events[0].Start?;
    StartedToFinished(events[1..]);
  }
}
