/** A request/response endpoint: other threads fill queues, one worker empties them.

    The worker's iteration is cut where it lets go of the mutex: `Take` is the part under
    the lock, `Finish` the rest. Between the two, other threads may call `Enqueue`,
    `PublishEvent`, `Trace` and `RequestStop`. */
module ServiceEndpoint {
  import opened Faults

  datatype Envelope = Envelope(kind: string, operation: string, correlationId: string, payload: string, status: int)

  const CAPACITY := 256

  /** What a run of the service handler comes to. */
  datatype Outcome = Returned(response: Envelope) | Threw(message: string)

  function Escaped(message: string): string {
    if message == "" then ""
    else (if message[0] == '"' || message[0] == '\\' then "\\" else "") + [message[0]] + Escaped(message[1..])
  }

  function JsonError(message: string): string {
    "{\"error\":\"" + Escaped(message) + "\"}"
  }

  function Reply(request: Envelope, outcome: Outcome): Envelope {
    var answer := match outcome
      case Returned(response) => response
      case Threw(message) => Envelope("", "", "", JsonError(message), 500);
    answer.(kind := "response", operation := request.operation, correlationId := request.correlationId)
  }

  // -------- History --------

  /** A request whose response publish was attempted, and that response. A handled request
      that has an id is number `source` of those; a repeat names the one it repeats. */
  datatype Answer = Answer(request: Envelope, response: Envelope, handled: bool, source: Option<nat>)

  function Asked(answers: seq<Answer>): seq<Envelope> {
    seq(|answers|, i requires 0 <= i < |answers| => answers[i].request)
  }

  /** The handler runs that the cache remembers or has remembered, in order. */
  function Runs(answers: seq<Answer>): seq<Answer> {
    if answers == [] then []
    else
      var last := answers[|answers| - 1];
      Runs(answers[..|answers| - 1]) + if last.handled && last.request.correlationId != "" then [last] else []
  }

  function Ids(runs: seq<Answer>): (ids: seq<string>)
    ensures |ids| == |runs|
  {
    seq(|runs|, i requires 0 <= i < |runs| => runs[i].request.correlationId)
  }

  /** Where the last `CAPACITY` runs start. */
  function Horizon(runs: seq<Answer>): nat {
    if |runs| <= CAPACITY then 0 else |runs| - CAPACITY
  }

  /** Two runs for one id are more than `CAPACITY` runs apart. */
  ghost predicate Spaced(runs: seq<Answer>) {
    forall i, j | 0 <= i < j < |runs| && runs[i].request.correlationId == runs[j].request.correlationId ::
        j - i > CAPACITY
  }

  function Members(ids: seq<string>): set<string> {
    set id | id in ids
  }

  lemma {:induction false} DistinctCount(ids: seq<string>)
    requires forall i, j | 0 <= i < j < |ids| :: ids[i] != ids[j]
    ensures |Members(ids)| == |ids|
  {
    if ids != [] {
      var front, last := ids[..|ids| - 1], ids[|ids| - 1];
      DistinctCount(front);
      assert Members(ids) == Members(front) + {last};
      assert last !in front;
    }
  }

  /** Between two runs for one id, at least `CAPACITY` other ids were handled. */
  lemma OthersBetween(runs: seq<Answer>, i: nat, j: nat)
    requires Spaced(runs) && i < j < |runs| && runs[i].request.correlationId == runs[j].request.correlationId
    ensures |Members(Ids(runs)[i + 1..j]) - {runs[i].request.correlationId}| >= CAPACITY
  {
    var id := runs[i].request.correlationId;
    var next := Ids(runs)[i + 1..i + 1 + CAPACITY];
    forall k, l | 0 <= k < l < |next|
      ensures next[k] != next[l]
    {
      assert runs[i + 1 + k].request.correlationId == next[k] && runs[i + 1 + l].request.correlationId == next[l];
    }
    DistinctCount(next);
    forall x | x in next
      ensures x in Members(Ids(runs)[i + 1..j]) - {id}
    {
      var k :| 0 <= k < |next| && next[k] == x;
      assert Ids(runs)[i + 1..j][k] == x && runs[i + 1 + k].request.correlationId == x;
    }
    SubsetSize(Members(next), Members(Ids(runs)[i + 1..j]) - {id});
  }

  lemma RunsAppend(answers: seq<Answer>, a: Answer)
    ensures Runs(answers + [a]) ==
            if a.handled && a.request.correlationId != "" then Runs(answers) + [a] else Runs(answers)
  {
    assert (answers + [a])[..|answers|] == answers;
  }

  /** A run for an id that the window does not have keeps equal ids apart. */
  lemma SpacedAppend(runs: seq<Answer>, a: Answer)
    requires Spaced(runs) && a.request.correlationId !in Ids(runs)[Horizon(runs)..]
    ensures Spaced(runs + [a])
  {
    forall i | Horizon(runs) <= i < |runs|
      ensures runs[i].request.correlationId != a.request.correlationId
    {
      assert Ids(runs)[Horizon(runs)..][i - Horizon(runs)] == runs[i].request.correlationId;
    }
  }

  /** The cache is exactly the last `CAPACITY` runs. */
  ghost predicate Cached(runs: seq<Answer>, responses: map<string, Envelope>, order: seq<string>) {
    && Spaced(runs)
    && order == Ids(runs)[Horizon(runs)..]
    && (forall id :: id in responses <==> id in order)
    && (forall i | Horizon(runs) <= i < |runs| :: responses[Ids(runs)[i]] == runs[i].response)
  }

  /** Every response carries its request's id, and a run's response also its operation; a
      repeat is, unchanged, the response of one of the last `CAPACITY` runs so far. */
  ghost predicate Answered(a: Answer, runs: seq<Answer>) {
    && a.response.kind == "response" && a.response.correlationId == a.request.correlationId
    && if a.handled then a.response.operation == a.request.operation
       else
         && a.source.Some? && Horizon(runs) <= a.source.value < |runs| && a.response == runs[a.source.value].response
         && a.request.correlationId == runs[a.source.value].request.correlationId
  }

  ghost predicate AllAnswered(answers: seq<Answer>) {
    forall k | 0 <= k < |answers| :: Answered(answers[k], Runs(answers[..k]))
  }

  lemma AnsweredAppend(answers: seq<Answer>, a: Answer)
    requires AllAnswered(answers) && Answered(a, Runs(answers))
    ensures AllAnswered(answers + [a])
    ensures Asked(answers + [a]) == Asked(answers) + [a.request]
  {
    var more := answers + [a];
    forall k | 0 <= k < |more|
      ensures Answered(more[k], Runs(more[..k]))
    {
      if k < |answers| {
        assert more[..k] == answers[..k];
      } else {
        assert more[..k] == answers;
      }
    }
  }

  /** What the cache holds for one of the last `CAPACITY` runs comes from that run. */
  lemma CachedSource(runs: seq<Answer>, responses: map<string, Envelope>, order: seq<string>, id: string)
    returns (i: nat)
    requires Cached(runs, responses, order) && id in responses
    ensures Horizon(runs) <= i < |runs| && runs[i].request.correlationId == id && runs[i].response == responses[id]
  {
    var k :| 0 <= k < |order| && order[k] == id;
    i := Horizon(runs) + k;
    assert Ids(runs)[i] == order[k];
  }

  lemma {:induction false} RunsAreAnswered(answers: seq<Answer>)
    requires AllAnswered(answers)
    ensures forall r | r in Runs(answers) ::
              && r in answers && r.handled && r.request.correlationId != ""
              && r.response.kind == "response" && r.response.correlationId == r.request.correlationId
  {
    if answers != [] {
      var front := answers[..|answers| - 1];
      forall k | 0 <= k < |front|
        ensures Answered(front[k], Runs(front[..k]))
      {
        assert front[..k] == answers[..k];
      }
      RunsAreAnswered(front);
      assert Answered(answers[|front|], Runs(answers[..|front|]));
    }
  }

  /** A repeat carries the operation of the request it repeats. Its own request's operation
      it carries exactly when that is the same. */
  lemma RepeatedOperation(answers: seq<Answer>, k: nat)
    requires AllAnswered(answers) && k < |answers| && !answers[k].handled
    ensures answers[k].source.Some? && answers[k].source.value < |Runs(answers[..k])|
    ensures answers[k].response.operation == answers[k].request.operation <==>
            answers[k].request.operation == Runs(answers[..k])[answers[k].source.value].request.operation
  {
    var before := answers[..k];
    forall i | 0 <= i < |before|
      ensures Answered(before[i], Runs(before[..i]))
    {
      assert before[..i] == answers[..i];
    }
    assert Answered(answers[k], Runs(before));
    var run := Runs(before)[answers[k].source.value];
    RunsAreAnswered(before);
    assert run in Runs(before);
    var j :| 0 <= j < |before| && before[j] == run;
    assert Answered(before[j], Runs(before[..j]));
  }

  lemma WindowIsDistinct(runs: seq<Answer>)
    requires Spaced(runs)
    ensures |Ids(runs)[Horizon(runs)..]| <= CAPACITY
    ensures var ids := Ids(runs)[Horizon(runs)..]; forall i, j | 0 <= i < j < |ids| :: ids[i] != ids[j]
  {
    var ids, h := Ids(runs)[Horizon(runs)..], Horizon(runs);
    forall i, j | 0 <= i < j < |ids|
      ensures ids[i] != ids[j]
    {
      assert ids[i] == runs[h + i].request.correlationId && ids[j] == runs[h + j].request.correlationId;
    }
  }

  /** The last `CAPACITY` ids, when there is one more. */
  lemma WindowSlides(ids: seq<string>, id: string, h: nat, h': nat)
    requires h == (if |ids| <= CAPACITY then 0 else |ids| - CAPACITY)
    requires h' == (if |ids| + 1 <= CAPACITY then 0 else |ids| + 1 - CAPACITY)
    ensures (ids + [id])[h'..] == ids[h..][if |ids[h..]| < CAPACITY then 0 else 1..] + [id]
  {
    assert (ids + [id])[h'..] == ids[h'..] + [id];
    assert ids[h..][h' - h..] == ids[h'..];
  }

  /** What of the order is kept when a run is added. */
  function Kept(order: seq<string>): seq<string> {
    if |order| < CAPACITY then order else order[1..]
  }

  lemma OrderSlides(runs: seq<Answer>, order: seq<string>, a: Answer)
    requires order == Ids(runs)[Horizon(runs)..]
    ensures Kept(order) + [a.request.correlationId] == Ids(runs + [a])[Horizon(runs + [a])..]
  {
    var id := a.request.correlationId;
    assert Ids(runs + [a]) == Ids(runs) + [id];
    hide Ids;
    WindowSlides(Ids(runs), id, Horizon(runs), Horizon(runs + [a]));
    assert order[0..] == order;
  }

  /** Remembering one more run, and forgetting the oldest when there are too many, keeps the
      cache the window of the last runs. */
  lemma CachedAppend(runs: seq<Answer>, responses: map<string, Envelope>, order: seq<string>,
                     responses': map<string, Envelope>, order': seq<string>, a: Answer)
    requires Cached(runs, responses, order) && a.request.correlationId !in responses
    requires order' == Kept(order) + [a.request.correlationId]
    requires forall k :: k in responses' <==> k in order'
    requires forall k | k in responses' ::
               responses'[k] == if k == a.request.correlationId then a.response else responses[k]
    ensures Cached(runs + [a], responses', order')
  {
    SpacedAppend(runs, a);
    OrderSlides(runs, order, a);
    hide Spaced, Kept, Cached;
    ghost var more := runs + [a];
    forall i | Horizon(more) <= i < |more|
      ensures Ids(more)[i] in responses' && responses'[Ids(more)[i]] == more[i].response
    {
      EntryStays(runs, responses, order, responses', order', a, i);
    }
    CachedParts(more, responses', order');
  }

  lemma CachedParts(runs: seq<Answer>, responses: map<string, Envelope>, order: seq<string>)
    requires Spaced(runs) && order == Ids(runs)[Horizon(runs)..]
    requires forall id :: id in responses <==> id in order
    requires forall i | Horizon(runs) <= i < |runs| ::
               Ids(runs)[i] in responses && responses[Ids(runs)[i]] == runs[i].response
    ensures Cached(runs, responses, order)
  {
  }

  lemma EntryStays(runs: seq<Answer>, responses: map<string, Envelope>, order: seq<string>,
                   responses': map<string, Envelope>, order': seq<string>, a: Answer, i: nat)
    requires Cached(runs, responses, order) && a.request.correlationId !in responses
    requires order' == Ids(runs + [a])[Horizon(runs + [a])..] && Horizon(runs + [a]) <= i <= |runs|
    requires forall k :: k in responses' <==> k in order'
    requires forall k | k in responses' ::
               responses'[k] == if k == a.request.correlationId then a.response else responses[k]
    ensures Ids(runs + [a])[i] in responses' && responses'[Ids(runs + [a])[i]] == (runs + [a])[i].response
  {
    hide Spaced;
    assert Ids(runs + [a])[i] == order'[i - Horizon(runs + [a])];
    if i < |runs| {
      assert Ids(runs + [a])[i] == Ids(runs)[i] == order[i - Horizon(runs)];
    }
  }

  /** Answering from the cache adds an answer, and no run. */
  lemma RepeatIsAnswered(answers: seq<Answer>, responses: map<string, Envelope>, order: seq<string>, request: Envelope)
    returns (a: Answer)
    requires Cached(Runs(answers), responses, order) && AllAnswered(answers) && request.correlationId in responses
    ensures a.request == request && a.response == responses[request.correlationId] && !a.handled
    ensures AllAnswered(answers + [a]) && Runs(answers + [a]) == Runs(answers)
    ensures Asked(answers + [a]) == Asked(answers) + [request]
  {
    var i := CachedSource(Runs(answers), responses, order, request.correlationId);
    a := Answer(request, responses[request.correlationId], false, Some(i));
    RunCarriesId(answers, i);
    RunsAppend(answers, a);
    AnsweredAppend(answers, a);
  }

  /** Answering from the handler adds a run if the request has an id. */
  lemma HandleIsAnswered(answers: seq<Answer>, request: Envelope, outcome: Outcome) returns (a: Answer)
    requires AllAnswered(answers)
    ensures a.request == request && a.response == Reply(request, outcome) && a.handled
    ensures AllAnswered(answers + [a])
    ensures Runs(answers + [a]) == if request.correlationId == "" then Runs(answers) else Runs(answers) + [a]
    ensures Asked(answers + [a]) == Asked(answers) + [request]
  {
    a := Answer(request, Reply(request, outcome), true,
                if request.correlationId == "" then None else Some(|Runs(answers)|));
    RunsAppend(answers, a);
    AnsweredAppend(answers, a);
  }

  /** Taking the next item of a queue in hand, and being done with it. */
  lemma QueueSteps(served: seq<Envelope>, queue: seq<Envelope>)
    requires queue != []
    ensures served + [] + queue == served + [queue[0]] + queue[1..]
    ensures served + [queue[0]] + queue[1..] == (served + [queue[0]]) + [] + queue[1..]
  {
  }

  lemma RunCarriesId(answers: seq<Answer>, i: nat)
    requires AllAnswered(answers) && i < |Runs(answers)|
    ensures var r := Runs(answers)[i];
            r.response.kind == "response" && r.response.correlationId == r.request.correlationId
  {
    RunsAreAnswered(answers);
    assert Runs(answers)[i] in Runs(answers);
  }

  lemma SubsetSize<T>(a: set<T>, b: set<T>)
    requires a <= b
    ensures |a| <= |b|
  {
    assert b == a + (b - a);
  }

  // -------- The endpoint --------

  datatype Work =
    | Nothing
    | SendTrace(event: Envelope)
    | SendEvent(event: Envelope)
    | Repeat(request: Envelope, cached: Envelope)
    | Handle(request: Envelope)

  function InHand(work: Work): seq<Envelope> {
    if work.Repeat? || work.Handle? then [work.request] else []
  }

  /** What a thread does next. */
  datatype Action =
    | CallEnqueue(request: Envelope)
    | CallPublishEvent(event: Envelope, started: bool)
    | CallTrace(event: Envelope)
    | CallStop
    | WorkerTakes
    | WorkerFinishes(outcome: Outcome)

  /** The requests that were enqueued before the stop. */
  function Offered(schedule: seq<Action>): seq<Envelope> {
    if schedule == [] then []
    else
      var front, last := schedule[..|schedule| - 1], schedule[|schedule| - 1];
      Offered(front) + if last.CallEnqueue? && CallStop !in front then [last.request] else []
  }

  /** The events that were published, to a topic, between start and stop. */
  function Published(schedule: seq<Action>, topic: string): seq<Envelope> {
    if schedule == [] then []
    else
      var front, last := schedule[..|schedule| - 1], schedule[|schedule| - 1];
      Published(front, topic)
      + if last.CallPublishEvent? && last.started && topic != "" && CallStop !in front
        then [last.event.(kind := "event")] else []
  }

  class Endpoint {
    const eventTopic: string
    var requests: seq<Envelope>
    var events: seq<Envelope>
    var traceEvents: seq<Envelope>
    var responses: map<string, Envelope>
    var responseOrder: seq<string>
    var stopping: bool
    var work: Work

    ghost var accepted: seq<Envelope>     // requests taken into the queue since the start
    ghost var raised: seq<Envelope>       // events taken into the queue since the start
    ghost var answers: seq<Answer>        // attempted response publishes, in order
    ghost var sent: seq<Envelope>         // attempted event publishes, in order
    ghost var runs: seq<Answer>           // the answers that the handler gave and the cache saw

    constructor (eventTopic: string)
      ensures Valid() && accepted == [] && answers == [] && raised == [] && sent == []
      ensures this.eventTopic == eventTopic && !stopping
    {
      this.eventTopic := eventTopic;
      requests, events, traceEvents, responses, responseOrder := [], [], [], map[], [];
      stopping, work := false, Nothing;
      accepted, raised, answers, sent, runs := [], [], [], [], [];
    }

    /** First in, first out, and nothing lost or served twice. */
    ghost predicate InOrder()
      reads `accepted, `answers, `work, `requests, `raised, `sent, `events
    {
      && accepted == Asked(answers) + InHand(work) + requests
      && raised == sent + (if work.SendEvent? then [work.event] else []) + events
    }

    ghost predicate HandValid()
      reads `work, `responses
    {
      && (work.Handle? ==> work.request.correlationId == "" || work.request.correlationId !in responses)
      && (work.Repeat? ==> work.request.correlationId != "" && work.request.correlationId in responses
                           && work.cached == responses[work.request.correlationId])
    }

    ghost predicate Valid()
      reads this
    {
      && InOrder() && HandValid()
      && runs == Runs(answers) && Cached(runs, responses, responseOrder) && AllAnswered(answers)
    }

    // -------- Other threads --------

    method Enqueue(request: Envelope)
      requires Valid()
      modifies this`requests, this`accepted
      ensures Valid()
      ensures if stopping then requests == old(requests) && accepted == old(accepted)
              else requests == old(requests) + [request] && accepted == old(accepted) + [request]
    {
      if stopping {
        return;
      }
      requests := requests + [request];
      accepted := accepted + [request];
    }

    method PublishEvent(event: Envelope, started: bool) returns (s: Status)
      requires Valid()
      modifies this`events, this`raised
      ensures Valid()
      ensures s == if eventTopic == "" then Raised else Done
      ensures if eventTopic == "" || stopping || !started then events == old(events) && raised == old(raised)
              else
                && events == old(events) + [event.(kind := "event")]
                && raised == old(raised) + [event.(kind := "event")]
    {
      if eventTopic == "" {
        return Raised;
      }
      if stopping || !started {
        return Done;
      }
      events := events + [event.(kind := "event")];
      raised := raised + [event.(kind := "event")];
      return Done;
    }

    method Trace(event: Envelope)
      requires Valid()
      modifies this`traceEvents
      ensures Valid()
      ensures traceEvents == if stopping then old(traceEvents) else old(traceEvents) + [event]
    {
      if stopping {
        return;
      }
      traceEvents := traceEvents + [event];
    }

    method RequestStop()
      requires Valid()
      modifies this`stopping
      ensures Valid() && stopping
    {
      stopping := true;
    }

    // -------- The worker --------

    /** The last `CAPACITY` ids that were handled. */
    ghost function RecentIds(): seq<string>
      reads `runs
    {
      Ids(runs)[Horizon(runs)..]
    }

    /** The next request is a repeat exactly when its id is not empty and was handled
        among the last `CAPACITY`. */
    method TakeRequest()
      requires Valid() && work.Nothing? && requests != []
      modifies this`requests, this`work
      ensures Valid() && (work.Repeat? || work.Handle?)
      ensures work.request == old(requests)[0] && requests == old(requests)[1..]
      ensures work.Repeat? <==> work.request.correlationId != "" && work.request.correlationId in RecentIds()
    {
      QueueSteps(Asked(answers), requests);
      var request := requests[0];
      requests := requests[1..];
      if request.correlationId != "" && request.correlationId in responses {
        work := Repeat(request, responses[request.correlationId]);
      } else {
        work := Handle(request);
      }
    }

    /** Events come after requests, and traces after events. */
    method TakeOther()
      requires Valid() && work.Nothing? && (events != [] || traceEvents != [])
      modifies this`events, this`traceEvents, this`work
      ensures Valid()
      ensures if old(events) != [] then
                work == SendEvent(old(events)[0]) && events == old(events)[1..] && traceEvents == old(traceEvents)
              else
                work == SendTrace(old(traceEvents)[0]) && events == [] && traceEvents == old(traceEvents)[1..]
    {
      if events != [] {
        work := SendEvent(events[0]);
        events := events[1..];
      } else {
        work := SendTrace(traceEvents[0]);
        traceEvents := traceEvents[1..];
      }
    }

    /** The part of an iteration under the lock, once the wait is over: requests before
        events before traces, and the end only when all queues are empty after a stop. */
    method Take() returns (ended: bool)
      requires Valid() && work.Nothing?
      requires stopping || requests != [] || events != [] || traceEvents != []
      modifies this`requests, this`events, this`traceEvents, this`work
      ensures Valid()
      ensures ended <==> old(stopping && requests == [] && events == [] && traceEvents == [])
      ensures if ended then work.Nothing? else !work.Nothing?
      ensures |requests| + |events| + |traceEvents| + (if ended then 0 else 1)
              == |old(requests)| + |old(events)| + |old(traceEvents)|
      ensures old(requests) != [] ==>
                (work.Repeat? || work.Handle?) && work.request == old(requests)[0] && requests == old(requests)[1..]
    {
      if stopping && requests == [] && events == [] && traceEvents == [] {
        return true;
      }
      if requests != [] {
        TakeRequest();
      } else {
        TakeOther();
      }
      return false;
    }

    /** The response of a run enters the cache; the oldest leaves when it is full. */
    method Remember(id: string, response: Envelope)
      requires id !in responses && |responseOrder| <= CAPACITY
      requires forall k :: k in responses <==> k in responseOrder
      requires forall i, j | 0 <= i < j < |responseOrder| :: responseOrder[i] != responseOrder[j]
      modifies this`responses, this`responseOrder
      ensures responseOrder == Kept(old(responseOrder)) + [id]
      ensures forall k :: k in responses <==> k in responseOrder
      ensures forall k | k in responses :: responses[k] == if k == id then response else old(responses)[k]
    {
      responses := responses[id := response];
      responseOrder := responseOrder + [id];
      ghost var all := responseOrder;
      ghost var n := 0;
      while |responseOrder| > CAPACITY
        invariant n <= 1 && n <= |all| && responseOrder == all[n..] && (n == 1 ==> |all| == CAPACITY + 1)
        invariant forall k :: k in responses <==> k in responseOrder
        invariant forall k | k in responses :: responses[k] == if k == id then response else old(responses)[k]
      {
        var oldest := responseOrder[0];
        assert oldest !in responseOrder[1..];
        responses := responses - {oldest};
        responseOrder := responseOrder[1..];
        n := n + 1;
      }
    }

    /** A repeat is answered from the cache, with the response of an earlier run. */
    method FinishRepeat() returns (ghost a: Answer)
      requires Valid() && work.Repeat?
      modifies this`work, this`answers
      ensures Valid() && work.Nothing? && answers == old(answers) + [a]
      ensures a.request == old(work).request && a.response == old(work).cached && !a.handled
    {
      a := RepeatIsAnswered(answers, responses, responseOrder, work.request);
      QueueSteps(Asked(answers), [work.request] + requests);
      answers := answers + [a];
      work := Nothing;
    }

    /** `a` is the answer of a handler run for an id that the cache does not have. */
    method RememberRun(ghost a: Answer, id: string, response: Envelope)
      requires Cached(runs, responses, responseOrder) && id !in responses
      requires a.request.correlationId == id && a.response == response
      modifies this`responses, this`responseOrder, this`runs
      ensures Cached(runs, responses, responseOrder) && runs == old(runs) + [a]
    {
      WindowIsDistinct(runs);
      Remember(id, response);
      CachedAppend(runs, old(responses), old(responseOrder), responses, responseOrder, a);
      runs := runs + [a];
    }

    /** The handler has run, or thrown: its response is remembered and published. */
    method FinishHandle(outcome: Outcome) returns (ghost a: Answer)
      requires Valid() && work.Handle?
      modifies this`work, this`answers, this`runs, this`responses, this`responseOrder
      ensures Valid() && work.Nothing? && answers == old(answers) + [a]
      ensures a.request == old(work).request && a.response == Reply(old(work).request, outcome) && a.handled
    {
      hide Cached, AllAnswered, Runs, Asked, Reply;
      var request := work.request;
      var response := Reply(request, outcome);
      a := HandleIsAnswered(answers, request, outcome);
      QueueSteps(Asked(answers), [request] + requests);
      if request.correlationId != "" {
        RememberRun(a, request.correlationId, response);
      }
      answers := answers + [a];
      work := Nothing;
    }

    method FinishSend()
      requires Valid() && (work.SendEvent? || work.SendTrace?)
      modifies this`work, this`sent
      ensures Valid() && work.Nothing?
      ensures sent == if old(work).SendEvent? then old(sent) + [old(work).event] else old(sent)
    {
      if work.SendEvent? {
        QueueSteps(sent, [work.event] + events);
        sent := sent + [work.event];
      }
      work := Nothing;
    }

    /** The part of an iteration after the lock is released. Whether a publish succeeds makes
        no difference to the worker. */
    method Finish(outcome: Outcome)
      requires Valid() && !work.Nothing?
      modifies this`work, this`answers, this`runs, this`responses, this`responseOrder, this`sent
      ensures Valid() && work.Nothing? && old(answers) <= answers && old(sent) <= sent
      ensures old(work).Handle? || old(work).Repeat? ==>
                && |answers| == |old(answers)| + 1 && answers[|old(answers)|].request == old(work).request
                && answers[|old(answers)|].response ==
                   if old(work).Repeat? then old(work).cached else Reply(old(work).request, outcome)
    {
      if work.Handle? {
        ghost var _ := FinishHandle(outcome);
      } else if work.Repeat? {
        ghost var _ := FinishRepeat();
      } else {
        FinishSend();
      }
    }

    /** Everything the worker still has to do. */
    ghost function Pending(): nat
      reads `requests, `events, `traceEvents, `work
    {
      |requests| + |events| + |traceEvents| + if work.Nothing? then 0 else 1
    }

    /** Once it is stopping, no caller can give the endpoint more to do. */
    method LateCalls()
      requires Valid() && stopping
      modifies this`requests, this`accepted, this`events, this`raised, this`traceEvents
      ensures Valid() && Pending() == old(Pending()) && accepted == old(accepted) && raised == old(raised)
    {
      hide Valid;
      var late: Envelope, started: bool := *, *;
      Enqueue(late);
      Trace(late);
      var _ := PublishEvent(late, started);
    }

    /** One step of one thread; a worker that has nothing to take waits. */
    method Act(a: Action)
      requires Valid()
      modifies this
      ensures Valid() && stopping == (old(stopping) || a.CallStop?)
      ensures old(answers) <= answers && old(sent) <= sent
      ensures accepted == old(accepted) + if a.CallEnqueue? && !old(stopping) then [a.request] else []
      ensures raised == old(raised) + if a.CallPublishEvent? && a.started && eventTopic != "" && !old(stopping)
                                      then [a.event.(kind := "event")] else []
    {
      hide Valid;
      match a
      case CallEnqueue(request) => Enqueue(request);
      case CallPublishEvent(event, started) => var _ := PublishEvent(event, started);
      case CallTrace(event) => Trace(event);
      case CallStop => RequestStop();
      case WorkerTakes =>
        if work.Nothing? && (stopping || requests != [] || events != [] || traceEvents != []) {
          var _ := Take();
        }
      case WorkerFinishes(outcome) =>
        if !work.Nothing? {
          Finish(outcome);
        }
    }

    /** The threads in any order. What was queued before the stop is what the queues took,
        and what was answered or sent so far is the first part of it, in order. */
    method Interleave(schedule: seq<Action>)
      requires Valid() && !stopping
      modifies this
      ensures Valid() && stopping == (CallStop in schedule)
      ensures old(answers) <= answers && old(sent) <= sent
      ensures accepted == old(accepted) + Offered(schedule) && Asked(answers) <= accepted
      ensures raised == old(raised) + Published(schedule, eventTopic) && sent <= raised
    {
      hide Valid;
      for i := 0 to |schedule|
        invariant Valid() && stopping == (CallStop in schedule[..i])
        invariant old(answers) <= answers && old(sent) <= sent
        invariant accepted == old(accepted) + Offered(schedule[..i])
        invariant raised == old(raised) + Published(schedule[..i], eventTopic)
      {
        assert schedule[..i + 1][..i] == schedule[..i];
        Act(schedule[i]);
      }
      assert schedule[..|schedule|] == schedule;
      ServedFirst();
    }

    lemma ServedFirst()
      requires Valid()
      ensures Asked(answers) <= accepted && sent <= raised
    {
    }

    /** One iteration of the worker of a stopping endpoint. */
    method Iterate() returns (ended: bool)
      requires Valid() && stopping
      modifies this`requests, this`events, this`traceEvents, this`work, this`answers, this`runs, this`responses
      modifies this`responseOrder, this`sent
      ensures Valid() && old(answers) <= answers
      ensures ended ==> Pending() == 0
      ensures !ended ==>
                work != Nothing && Pending() <= old(Pending()) && (old(work) != Nothing ==> Pending() < old(Pending()))
    {
      hide Valid;
      if !work.Nothing? {
        var outcome: Outcome := *;
        Finish(outcome);
      }
      ended := Take();
    }

    /** After a stop the worker empties the queues and ends, although other threads still
        call: each accepted request has been answered once, in order, and each event sent. */
    method Drain()
      requires Valid() && stopping
      modifies this`requests, this`events, this`traceEvents, this`work, this`answers, this`runs, this`responses
      modifies this`responseOrder, this`sent
      modifies this`accepted, this`raised
      ensures Valid() && Pending() == 0
      ensures accepted == old(accepted) && raised == old(raised) && old(answers) <= answers
      ensures Asked(answers) == accepted && sent == raised
    {
      hide Valid;
      var ended := false;
      while !ended
        invariant Valid() && (ended ==> Pending() == 0)
        invariant accepted == old(accepted) && raised == old(raised) && old(answers) <= answers
        decreases Pending(), work.Nothing?, !ended
      {
        LateCalls();
        ended := Iterate();
      }
      AllServed();
    }

    lemma AllServed()
      requires Valid() && Pending() == 0
      ensures Asked(answers) == accepted && sent == raised
    {
    }

    method Clear()
      modifies this`requests, this`events, this`traceEvents, this`responses, this`responseOrder
      ensures requests == [] && events == [] && traceEvents == [] && responses == map[] && responseOrder == []
    {
      requests, events, traceEvents, responses, responseOrder := [], [], [], map[], [];
    }

    /** Stops accepting, waits for the worker and clears what is left, which is nothing but
        the cache. */
    method Stop()
      requires Valid()
      modifies this
      ensures stopping && Pending() == 0 && responses == map[] && responseOrder == []
      ensures accepted == old(accepted) && Asked(answers) == accepted && sent == raised == old(raised)
      ensures AllAnswered(answers) && Spaced(Runs(answers))
    {
      RequestStop();
      Drain();
      Clear();
    }

    /** A stopped endpoint starts over with nothing remembered. */
    method Start()
      requires work.Nothing? && requests == [] && events == [] && traceEvents == []
      requires responses == map[] && responseOrder == []
      modifies this
      ensures Valid() && !stopping && accepted == [] && answers == [] && raised == [] && sent == []
    {
      stopping := false;
      accepted, raised, answers, sent, runs := [], [], [], [], [];
    }
  }

  /** Over the life of an endpoint, however its threads are interleaved: the requests that
      were enqueued before the stop are the ones that were answered, each once and in order,
      and the events published before it are the ones that were sent. */
  method Serve(topic: string, schedule: seq<Action>) returns (endpoint: Endpoint)
    ensures fresh(endpoint) && endpoint.stopping && endpoint.Pending() == 0
    ensures Asked(endpoint.answers) == Offered(schedule) && endpoint.sent == Published(schedule, topic)
    ensures AllAnswered(endpoint.answers) && Spaced(Runs(endpoint.answers))
    ensures endpoint.eventTopic == topic && endpoint.responses == map[] && endpoint.responseOrder == []
  {
    endpoint := new Endpoint(topic);
    endpoint.Interleave(schedule);
    endpoint.Stop();
  }

  /** And so in every further life of a stopped endpoint, which begins with nothing that the
      earlier ones have left. */
  method ServeAgain(endpoint: Endpoint, schedule: seq<Action>)
    requires endpoint.stopping && endpoint.Pending() == 0 && endpoint.responses == map[] && endpoint.responseOrder == []
    modifies endpoint
    ensures endpoint.stopping && endpoint.Pending() == 0 && endpoint.responses == map[] && endpoint.responseOrder == []
    ensures Asked(endpoint.answers) == Offered(schedule)
    ensures endpoint.sent == Published(schedule, endpoint.eventTopic)
    ensures AllAnswered(endpoint.answers) && Spaced(Runs(endpoint.answers))
  {
    endpoint.Start();
    endpoint.Interleave(schedule);
    endpoint.Stop();
  }
}
