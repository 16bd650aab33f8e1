/**
 Serving data requests with a cache of earlier answers. Requests are served concurrently, and the cache may
 forget, delay or drop what it is given.
 */
module RequestCache {
  import opened Options

  datatype Result<T> = Ok(value: T) | Err(error: string)
  datatype Handle = Opened | Failed(error: string)

  /**
   What the outside world answers while one request is served: for every connection whether it may read (or the
   error that there are no connections), and whether a handle can be opened.
   */
  datatype Moment = Moment(connections: Result<seq<bool>>, handle: Handle) {
    predicate Authorized() {
      connections.Ok? && forall i :: 0 <= i < |connections.value| ==> connections.value[i]
    }

    /** Whoever may read can also open. */
    predicate Consistent() {
      Authorized() ==> handle.Opened?
    }
  }

  /** key: under which the answer is stored; execute: the answer, which depends on nothing but the request. */
  datatype Service<!R, K, E> = Service(key: R -> Result<K>, execute: R -> Result<E>)

  /** An answer is also the answer to every other request with the same key. */
  ghost predicate KeyDetermines<R(!new), K(!new), E(!new)>(service: Service<R, K, E>) {
    forall r1, r2 :: service.key(r1).Ok? && service.key(r1) == service.key(r2) && service.execute(r1).Ok?
              ==> service.execute(r1) == service.execute(r2)
  }

  /** The reply of a server without a cache. */
  function Cacheless<R, K, E>(service: Service<R, K, E>, r: R, m: Moment): Result<E> {
    if m.connections.Err? then Err(m.connections.error)
    else if service.key(r).Err? then Err(service.key(r).error)
    else if m.handle.Failed? then Err(m.handle.error)
    else service.execute(r)
  }

  function Lookup<K, E>(entries: map<K, E>, key: Result<K>): Option<E> {
    if key.Ok? && key.value in entries then Some(entries[key.value]) else None
  }

  /** The request is answered from the cache. */
  predicate Hit<R, K, E>(service: Service<R, K, E>, r: R, m: Moment, found: Option<E>) {
    m.connections.Ok? && service.key(r).Ok? && found.Some? && m.Authorized()
  }

  function Served<R, K, E>(service: Service<R, K, E>, r: R, m: Moment, found: Option<E>): Result<E> {
    if Hit(service, r, m, found) then Ok(found.value) else Cacheless(service, r, m)
  }

  /** The request gets as far as storing its answer. */
  predicate Stores<R, K, E>(service: Service<R, K, E>, r: R, m: Moment, found: Option<E>) {
    !Hit(service, r, m, found) && Cacheless(service, r, m).Ok?
  }

  /** One request after the other, with a cache that keeps everything. */
  class Endpoint<!R, K(==), E> {
    var entries: map<K, E>
    const service: Service<R, K, E>

    constructor (service: Service<R, K, E>)
      ensures this.service == service && entries == map[]
    {
      this.service := service;
      entries := map[];
    }

    method MakeDataRequest(r: R, m: Moment) returns (reply: Result<E>)
      modifies this`entries
      ensures reply == Served(service, r, m, Lookup(old(entries), service.key(r)))
      ensures if Stores(service, r, m, Lookup(old(entries), service.key(r))) then
                service.key(r).Ok? && reply.Ok? && entries == old(entries)[service.key(r).value := reply.value]
              else entries == old(entries)
      ensures m.connections.Err? ==> reply == Err(m.connections.error) && entries == old(entries)
      ensures m.connections.Ok? && service.key(r).Err? ==> reply == Err(service.key(r).error) && entries == old(entries)
      ensures m.connections.Ok? && service.key(r).Ok? ==>
                var key := service.key(r).value;
                if key in old(entries) && forall i :: 0 <= i < |m.connections.value| ==> m.connections.value[i] then
                  reply == Ok(old(entries)[key]) && entries == old(entries)
                else if m.handle.Failed? then
                  reply == Err(m.handle.error) && entries == old(entries)
                else
                  reply == service.execute(r)
                  && entries == if reply.Ok? then old(entries)[key := reply.value] else old(entries)
    {
      if m.connections.Err? {
        return Err(m.connections.error);
      }
      var key := service.key(r);
      if key.Err? {
        return Err(key.error);
      }
      if key.value in entries {
        var isAuthorizedToRead := true;
        for i := 0 to |m.connections.value|
          invariant isAuthorizedToRead <==> forall j :: 0 <= j < i ==> m.connections.value[j]
        {
          if !m.connections.value[i] {
            isAuthorizedToRead := false;
          }
        }
        if isAuthorizedToRead {
          return Ok(entries[key.value]);
        }
      }
      if m.handle.Failed? {
        return Err(m.handle.error);
      }
      var answer := service.execute(r);
      if answer.Err? {
        return answer;
      }
      entries := entries[key.value := answer.value];
      return answer;
    }
  }

  // ---- many requests at once

  /**
   entries: what a lookup can find; pending: answers handed to the cache that it has not taken up yet;
   asked: all requests so far; inflight: those that missed the cache; replies: those that were answered; hits: those
   that were answered from the cache.
   */
  datatype State<!R, !K, E> = State(entries: map<K, E>, pending: seq<(K, E)>, asked: map<nat, (R, Moment)>,
                                    inflight: set<nat>, replies: map<nat, Result<E>>, hits: set<nat>)

  datatype Event<R, K> =
    | Arrive(id: nat, request: R, moment: Moment)
    | Finish(id: nat)
    | TakeUp(index: nat)
    | Drop(index: nat)
    | Evict(key: K)

  predicate Enabled<R, K, E>(s: State<R, K, E>, event: Event<R, K>) {
    match event
    case Arrive(id, _, _) => id !in s.asked
    case Finish(id) => id in s.inflight && id in s.asked
    case TakeUp(index) => index < |s.pending|
    case Drop(index) => index < |s.pending|
    case Evict(_) => true
  }

  function Next<R, K(==), E>(service: Service<R, K, E>, s: State<R, K, E>, event: Event<R, K>): State<R, K, E>
    requires Enabled(s, event)
  {
    match event
    case Arrive(id, r, m) =>
      var found := Lookup(s.entries, service.key(r));
      var seen := s.(asked := s.asked[id := (r, m)]);
      if Hit(service, r, m, found) then seen.(replies := s.replies[id := Ok(found.value)], hits := s.hits + {id})
      else if m.connections.Err? || service.key(r).Err? then seen.(replies := s.replies[id := Cacheless(service, r, m)])
      else seen.(inflight := s.inflight + {id})
    case Finish(id) =>
      var (r, m) := s.asked[id];
      var reply := Cacheless(service, r, m);
      var done := s.(inflight := s.inflight - {id}, replies := s.replies[id := reply]);
      if reply.Ok? && service.key(r).Ok? then done.(pending := s.pending + [(service.key(r).value, reply.value)]) else done
    case TakeUp(index) =>
      s.(entries := s.entries[s.pending[index].0 := s.pending[index].1],
         pending := s.pending[..index] + s.pending[index + 1..])
    case Drop(index) => s.(pending := s.pending[..index] + s.pending[index + 1..])
    case Evict(key) => s.(entries := s.entries - {key})
  }

  function Initial<R, K, E>(): State<R, K, E> {
    State(map[], [], map[], {}, map[], {})
  }

  ghost predicate IsRun<R(!new), K(!new), E(!new)>(service: Service<R, K, E>, states: seq<State<R, K, E>>, events: seq<Event<R, K>>) {
    && |states| == |events| + 1
    && states[0] == Initial<R, K, E>()
    && forall i :: 0 <= i < |events| ==> Enabled(states[i], events[i]) && states[i + 1] == Next(service, states[i], events[i])
  }

  // ---- what every run keeps

  /** The entry is the answer to every request with this key. */
  ghost predicate Computed<R(!new), K(!new), E(!new)>(service: Service<R, K, E>, key: K, entry: E) {
    forall r :: service.key(r) == Ok(key) ==> service.execute(r) == Ok(entry)
  }

  ghost predicate CacheInv<R(!new), K(!new), E(!new)>(service: Service<R, K, E>, s: State<R, K, E>) {
    && (forall k :: k in s.entries ==> Computed(service, k, s.entries[k]))
    && (forall i :: 0 <= i < |s.pending| ==> Computed(service, s.pending[i].0, s.pending[i].1))
  }

  /** A reply from the cache is what an authorized reader gets who can open the data; any other is that without a cache. */
  predicate RightReply<R, K, E(==)>(service: Service<R, K, E>, r: R, m: Moment, reply: Result<E>, hit: bool) {
    if hit then m.Authorized() && reply.Ok? && reply == Cacheless(service, r, m.(handle := Opened))
    else reply == Cacheless(service, r, m)
  }

  ghost predicate ReplyInv<R(!new), K(!new), E(!new)>(service: Service<R, K, E>, s: State<R, K, E>) {
    && (forall id :: id in s.replies ==>
          id in s.asked && RightReply(service, s.asked[id].0, s.asked[id].1, s.replies[id], id in s.hits))
    && (forall id :: id in s.hits ==> id in s.replies)
    && (forall id :: id in s.inflight ==> id in s.asked && id !in s.replies)
    && (forall id :: id in s.asked ==> id in s.inflight || id in s.replies)
  }

  lemma AnswerIsComputed<R(!new), K(!new), E(!new)>(service: Service<R, K, E>, r: R)
    requires KeyDetermines(service) && service.key(r).Ok? && service.execute(r).Ok?
    ensures Computed(service, service.key(r).value, service.execute(r).value)
  {
  }

  lemma InitialInv<R(!new), K(!new), E(!new)>(service: Service<R, K, E>)
    ensures CacheInv(service, Initial<R, K, E>()) && ReplyInv(service, Initial<R, K, E>())
  {
  }

  lemma StepKeepsCache<R(!new), K(!new), E(!new)>(service: Service<R, K, E>, s: State<R, K, E>, event: Event<R, K>)
    requires KeyDetermines(service) && Enabled(s, event) && CacheInv(service, s)
    ensures CacheInv(service, Next(service, s, event))
  {
    match event
    case Finish(id) =>
      var r := s.asked[id].0;
      if Cacheless(service, r, s.asked[id].1).Ok? {
        AnswerIsComputed(service, r);
      }
    case TakeUp(index) =>
      assert Computed(service, s.pending[index].0, s.pending[index].1);
    case _ =>
  }

  /**
   With a cache that holds nothing but answers, a reply differs from the one without a cache exactly when the
   answer is found, the reader is authorized, and yet a handle cannot be opened.
   */
  lemma ServedDiffersIff<R(!new), K(!new), E(!new)>(service: Service<R, K, E>, entries: map<K, E>, r: R, m: Moment)
    requires forall k :: k in entries ==> Computed(service, k, entries[k])
    ensures Served(service, r, m, Lookup(entries, service.key(r))) != Cacheless(service, r, m)
            <==> Hit(service, r, m, Lookup(entries, service.key(r))) && m.handle.Failed?
  {
    var found := Lookup(entries, service.key(r));
    if Hit(service, r, m, found) {
      assert Computed(service, service.key(r).value, found.value);
    }
  }

  lemma StepKeepsReplies<R(!new), K(!new), E(!new)>(service: Service<R, K, E>, s: State<R, K, E>, event: Event<R, K>)
    requires Enabled(s, event) && CacheInv(service, s) && ReplyInv(service, s)
    ensures ReplyInv(service, Next(service, s, event))
  {
    if event.Arrive? {
      var r, found := event.request, Lookup(s.entries, service.key(event.request));
      if Hit(service, r, event.moment, found) {
        assert Computed(service, service.key(r).value, found.value);
      }
    }
  }

  lemma {:induction false} RunKeepsInv<R(!new), K(!new), E(!new)>(
      service: Service<R, K, E>, states: seq<State<R, K, E>>, events: seq<Event<R, K>>, n: nat)
    requires KeyDetermines(service) && IsRun(service, states, events) && n < |states|
    ensures CacheInv(service, states[n]) && ReplyInv(service, states[n])
  {
    if n == 0 {
      InitialInv(service);
    } else {
      RunKeepsInv(service, states, events, n - 1);
      StepKeepsCache(service, states[n - 1], events[n - 1]);
      StepKeepsReplies(service, states[n - 1], events[n - 1]);
    }
  }

  /**
   However requests overlap and whatever the cache forgets, a reply is the one a server without a cache gives to that
   request at that moment, unless it came from the cache while no handle could be opened; and then it is the one that
   server gives as soon as a handle can be.
   */
  lemma CachedEqualsCacheless<R(!new), K(!new), E(!new)>(
      service: Service<R, K, E>, states: seq<State<R, K, E>>, events: seq<Event<R, K>>, n: nat, id: nat)
    requires KeyDetermines(service) && IsRun(service, states, events)
    requires n < |states| && id in states[n].replies
    ensures id in states[n].asked
    ensures var (r, m) := states[n].asked[id];
            && (states[n].replies[id] != Cacheless(service, r, m) <==> id in states[n].hits && m.handle.Failed?)
            && (id in states[n].hits ==> m.Authorized() && states[n].replies[id] == Cacheless(service, r, m.(handle := Opened)))
  {
    RunKeepsInv(service, states, events, n);
    assert RightReply(service, states[n].asked[id].0, states[n].asked[id].1, states[n].replies[id], id in states[n].hits);
  }

  /** So where whoever may read can also open, no reply tells whether there is a cache. */
  lemma CacheIsInvisible<R(!new), K(!new), E(!new)>(
      service: Service<R, K, E>, states: seq<State<R, K, E>>, events: seq<Event<R, K>>, n: nat, id: nat)
    requires KeyDetermines(service) && IsRun(service, states, events)
    requires n < |states| && id in states[n].replies
    requires id in states[n].asked ==> states[n].asked[id].1.Consistent()
    ensures id in states[n].asked
    ensures states[n].replies[id] == Cacheless(service, states[n].asked[id].0, states[n].asked[id].1)
  {
    CachedEqualsCacheless(service, states, events, n, id);
  }

  /** A request that is not answered at once can be finished, and then is. */
  lemma EveryRequestIsAnswered<R(!new), K(!new), E(!new)>(
      service: Service<R, K, E>, states: seq<State<R, K, E>>, events: seq<Event<R, K>>, n: nat, id: nat)
    requires KeyDetermines(service) && IsRun(service, states, events)
    requires n < |states| && id in states[n].asked
    ensures id in states[n].replies
            || (Enabled(states[n], Finish(id)) && id in Next(service, states[n], Finish(id)).replies)
  {
    RunKeepsInv(service, states, events, n);
  }

  /** Whatever is in the cache, a reader who lacks authorization for one of the cubes gets nothing from it. */
  lemma UnauthorizedGetsNothingCached<R, K, E>(service: Service<R, K, E>, r: R, m: Moment, found: Option<E>, i: nat)
    requires m.connections.Ok? && i < |m.connections.value| && !m.connections.value[i]
    ensures Served(service, r, m, found) == Served(service, r, m, None)
  {
  }

  /** A run in which one request is answered, and the next one with the same key gets that answer. */
  lemma AnsweredTwice<R(!new), K(!new), E(!new)>(service: Service<R, K, E>, r1: R, m1: Moment, r2: R, m2: Moment)
    returns (states: seq<State<R, K, E>>, events: seq<Event<R, K>>)
    requires service.key(r1).Ok? && service.key(r1) == service.key(r2) && service.execute(r1).Ok?
    requires m1.connections.Ok? && m1.handle.Opened? && m2.Authorized()
    ensures IsRun(service, states, events)
    ensures var last := states[|states| - 1];
            && 1 in last.replies && 1 in last.asked && last.asked[1] == (r2, m2)
            && last.replies[1] == service.execute(r1)
  {
    events := [Arrive(0, r1, m1), Finish(0), TakeUp(0), Arrive(1, r2, m2)];
    var s0 := Initial<R, K, E>();
    var s1 := Next(service, s0, events[0]);
    assert s1 == State(map[], [], map[0 := (r1, m1)], {0}, map[], {});
    var s2 := Next(service, s1, events[1]);
    var key, answer := service.key(r1).value, service.execute(r1);
    assert s2 == State(map[], [(key, answer.value)], map[0 := (r1, m1)], {}, map[0 := answer], {});
    var s3 := Next(service, s2, events[2]);
    assert s3 == State(map[key := answer.value], [], map[0 := (r1, m1)], {}, map[0 := answer], {});
    var s4 := Next(service, s3, events[3]);
    states := [s0, s1, s2, s3, s4];
  }

  /** Unless keys determine answers, there is a run in which the wrong answer is served. */
  lemma WrongAnswerIsServed<R(!new), K(!new), E(!new)>(service: Service<R, K, E>, r1: R, r2: R, m: Moment)
    returns (states: seq<State<R, K, E>>, events: seq<Event<R, K>>)
    requires service.key(r1).Ok? && service.key(r1) == service.key(r2)
    requires service.execute(r1).Ok? && service.execute(r1) != service.execute(r2)
    requires m.Authorized() && m.handle.Opened?
    ensures IsRun(service, states, events)
    ensures var last := states[|states| - 1];
            && 1 in last.replies && 1 in last.asked && last.asked[1] == (r2, m)
            && last.replies[1] != Cacheless(service, r2, m)
  {
    states, events := AnsweredTwice(service, r1, m, r2, m);
  }

  /** A reader who counts as authorized while nothing can be opened, as for a file that is gone, is still answered. */
  lemma UnopenedIsServed<R(!new), K(!new), E(!new)>(service: Service<R, K, E>, r: R, m: Moment, later: Moment)
    returns (states: seq<State<R, K, E>>, events: seq<Event<R, K>>)
    requires service.key(r).Ok? && service.execute(r).Ok?
    requires m.Authorized() && m.handle.Opened? && later.Authorized() && later.handle.Failed?
    ensures IsRun(service, states, events)
    ensures var last := states[|states| - 1];
            && 1 in last.replies && 1 in last.asked && last.asked[1] == (r, later)
            && last.replies[1] == service.execute(r) != Cacheless(service, r, later)
  {
    states, events := AnsweredTwice(service, r, m, r, later);
  }
}
