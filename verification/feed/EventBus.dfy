/** The process-local fan-out: one bounded queue per subscriber. */
module EventBus {
  import opened Prelude
  import opened Counting

  const LOCAL_QUEUE_LIMIT: nat := 200

  type OrgId = string

  /** A subscriber is known by its queue. */
  type SubId = Queue

  /* ---------- queues as objects ---------- */

  class Queue {
    var items: seq<string>
    ghost var given: seq<string>      // what the subscriber has taken so far

    constructor ()
      ensures items == [] && given == []
    {
      items, given := [], [];
    }

    /** `put_nowait`; false is `QueueFull`. */
    method PutNowait(data: string) returns (ok: bool)
      modifies this`items
      ensures ok <==> |old(items)| < LOCAL_QUEUE_LIMIT
      ensures items == Offered(old(items), data)
    {
      ok := |items| < LOCAL_QUEUE_LIMIT;
      if ok {
        items := items + [data];
      }
    }

    /** `get` once there is something to get. */
    method Get() returns (data: string)
      requires items != []
      modifies this
      ensures [data] + items == old(items) && given == old(given) + [data]
    {
      data := items[0];
      items := items[1..];
      given := given + [data];
    }
  }

  function Offered(items: seq<string>, data: string): seq<string> {
    if |items| < LOCAL_QUEUE_LIMIT then items + [data] else items
  }

  /** The sets and the organization noted for each queue agree. */
  ghost predicate Consistent(subscribers: map<OrgId, set<Queue>>, orgOf: map<Queue, OrgId>) {
    && (forall q | q in orgOf :: orgOf[q] in subscribers && q in subscribers[orgOf[q]])
    && (forall o, q | o in subscribers && q in subscribers[o] :: q in orgOf && orgOf[q] == o)
  }

  lemma JoinKeepsConsistent(subscribers: map<OrgId, set<Queue>>, orgOf: map<Queue, OrgId>, org: OrgId, queue: Queue)
    requires Consistent(subscribers, orgOf) && queue !in orgOf
    ensures Consistent(subscribers[org := (if org in subscribers then subscribers[org] else {}) + {queue}],
                       orgOf[queue := org])
  {
  }

  lemma DiscardKeepsConsistent(subscribers: map<OrgId, set<Queue>>, orgOf: map<Queue, OrgId>, org: OrgId, queue: Queue)
    requires Consistent(subscribers, orgOf) && org in subscribers && queue in subscribers[org]
    ensures Consistent(subscribers[org := subscribers[org] - {queue}], orgOf - {queue})
  {
    var less, orgs := subscribers[org := subscribers[org] - {queue}], orgOf - {queue};
    forall q | q in orgs
      ensures orgs[q] in less && q in less[orgs[q]]
    {
      assert q in orgOf && orgs[q] == orgOf[q];
    }
    forall o, q | o in less && q in less[o]
      ensures q in orgs && orgs[q] == o
    {
      if o == org {
        assert less[o] == subscribers[o] - {queue};
        assert q != queue;
      } else {
        assert less[o] == subscribers[o];
        assert orgOf[q] == o && orgOf[queue] == org;
        assert q != queue;
      }
    }
  }

  lemma DropKeepsConsistent(subscribers: map<OrgId, set<Queue>>, orgOf: map<Queue, OrgId>, org: OrgId)
    requires Consistent(subscribers, orgOf) && org in subscribers && subscribers[org] == {}
    ensures Consistent(subscribers - {org}, orgOf)
  {
    forall q | q in orgOf
      ensures orgOf[q] != org
    {
      assert q in subscribers[orgOf[q]];
    }
  }

  ghost function Shown(orgOf: map<Queue, OrgId>): Subs
    reads orgOf.Keys
  {
    map q | q in orgOf :: Sub(orgOf[q], q.given, q.items)
  }

  lemma JoinShows(orgOf: map<Queue, OrgId>, org: OrgId, queue: Queue)
    requires queue.items == [] && queue.given == []
    ensures Shown(orgOf[queue := org]) == Step(Shown(orgOf), Join(queue, org))
  {
  }

  lemma DiscardShows(orgOf: map<Queue, OrgId>, queue: Queue)
    ensures Shown(orgOf - {queue}) == Step(Shown(orgOf), Leave(queue))
  {
  }

  class Bus {
    var subscribers: map<OrgId, set<Queue>>
    ghost var orgOf: map<Queue, OrgId>

    /** A queue serves one organization and respects the limit. */
    ghost predicate Valid()
      reads this, orgOf.Keys
    {
      && Consistent(subscribers, orgOf) && (forall o | o in subscribers :: subscribers[o] != {})
      && (forall q | q in orgOf :: |q.items| <= LOCAL_QUEUE_LIMIT)
    }

    /** The subscribers as the theorems below speak of them. */
    ghost function View(): Subs
      reads this`orgOf, orgOf.Keys
    {
      Shown(orgOf)
    }

    function QueuesOf(org: OrgId): set<Queue>
      reads this
    {
      if org in subscribers then subscribers[org] else {}
    }

    constructor ()
      ensures Valid() && subscribers == map[] && View() == map[]
    {
      subscribers, orgOf := map[], map[];
    }

    method Enter(org: OrgId, queue: Queue)
      requires Valid() && queue !in orgOf && queue.items == [] && queue.given == []
      modifies this
      ensures Valid()
      ensures subscribers == old(subscribers)[org := old(QueuesOf(org)) + {queue}]
      ensures View() == Step(old(View()), Join(queue, org))
    {
      JoinKeepsConsistent(subscribers, orgOf, org, queue);
      JoinShows(orgOf, org, queue);
      subscribers := subscribers[org := QueuesOf(org) + {queue}];
      orgOf := orgOf[queue := org];
    }

    method Subscribe(org: OrgId) returns (queue: Queue)
      requires Valid()
      modifies this
      ensures Valid() && fresh(queue)
      ensures subscribers == old(subscribers)[org := old(QueuesOf(org)) + {queue}]
      ensures View() == Step(old(View()), Join(queue, org))
    {
      queue := new Queue();
      Enter(org, queue);
    }

    /** The queue leaves its set, which may be empty afterwards. */
    method Discard(org: OrgId, queue: Queue)
      requires Valid() && queue in QueuesOf(org)
      modifies this
      ensures Consistent(subscribers, orgOf) && orgOf == old(orgOf) - {queue}
      ensures org in subscribers && subscribers == old(subscribers)[org := old(QueuesOf(org)) - {queue}]
      ensures View() == Step(old(View()), Leave(queue))
    {
      DiscardKeepsConsistent(subscribers, orgOf, org, queue);
      DiscardShows(orgOf, queue);
      subscribers := subscribers[org := subscribers[org] - {queue}];
      orgOf := orgOf - {queue};
    }

    /** An empty set is deleted. */
    method DropIfEmpty(org: OrgId)
      requires Consistent(subscribers, orgOf) && org in subscribers
      modifies this`subscribers
      ensures Consistent(subscribers, orgOf)
      ensures subscribers == if old(subscribers)[org] == {} then old(subscribers) - {org} else old(subscribers)
    {
      if subscribers[org] == {} {
        DropKeepsConsistent(subscribers, orgOf, org);
        subscribers := subscribers - {org};
      }
    }

    method Unsubscribe(org: OrgId, queue: Queue)
      requires Valid() && queue in QueuesOf(org)
      modifies this
      ensures Valid() && QueuesOf(org) == old(QueuesOf(org)) - {queue}
      ensures forall o | o != org :: QueuesOf(o) == old(QueuesOf(o))
      ensures View() == Step(old(View()), Leave(queue))
    {
      Discard(org, queue);
      DropIfEmpty(org);
    }

    /** Offers the event to every queue of the organization, in whatever order, and to no other;
        returns how many were full. */
    method Publish(org: OrgId, data: string) returns (dropped: nat)
      requires Valid()
      modifies QueuesOf(org)`items
      ensures Valid()
      ensures View() == Step(old(View()), Act.Publish(org, data))
      ensures dropped == |old(FullOf(QueuesOf(org)))|
    {
      dropped := OfferAll(QueuesOf(org), data);
      assert forall q | q in orgOf :: q in QueuesOf(org) <==> orgOf[q] == org;
    }

    /** The subscriber's next event. */
    method Deliver(org: OrgId, queue: Queue) returns (data: string)
      requires Valid() && queue in QueuesOf(org) && queue.items != []
      modifies queue
      ensures Valid() && data == old(queue.items[0])
      ensures View() == Step(old(View()), Take(queue))
    {
      data := queue.Get();
    }
  }

  function FullOf(queues: set<Queue>): set<Queue>
    reads queues
  {
    set q | q in queues && |q.items| >= LOCAL_QUEUE_LIMIT
  }

  method OfferAll(queues: set<Queue>, data: string) returns (dropped: nat)
    modifies queues`items
    ensures forall q | q in queues :: q.items == Offered(old(q.items), data)
    ensures dropped == |old(FullOf(queues))|
  {
    dropped := 0;
    ghost var refused: set<Queue> := {};
    var todo := queues;
    while todo != {}
      invariant todo <= queues
      invariant forall q | q in queues :: q.items == if q in todo then old(q.items) else Offered(old(q.items), data)
      invariant forall q | q in queues :: q in refused <==> q !in todo && |old(q.items)| >= LOCAL_QUEUE_LIMIT
      invariant refused <= queues && dropped == |refused|
      decreases todo
    {
      var queue :| queue in todo;
      var ok := queue.PutNowait(data);
      if !ok {
        dropped := dropped + 1;
        refused := refused + {queue};
      }
      todo := todo - {queue};
    }
    assert refused == old(FullOf(queues));
  }

  /* ---------- whole runs ---------- */

  /** One subscriber: what it was given so far and what waits for it. */
  datatype Sub = Sub(org: OrgId, received: seq<string>, queued: seq<string>)

  datatype Act =
    | Join(id: SubId, org: OrgId)
    | Leave(id: SubId)
    | Publish(org: OrgId, data: string)
    | Take(id: SubId)

  type Subs = map<SubId, Sub>

  function Step(subs: Subs, a: Act): Subs {
    match a
    case Join(id, org) => subs[id := Sub(org, [], [])]
    case Leave(id) => subs - {id}
    case Publish(org, data) =>
      map id | id in subs ::
        if subs[id].org == org then subs[id].(queued := Offered(subs[id].queued, data)) else subs[id]
    case Take(id) =>
      if id in subs && subs[id].queued != [] then
        subs[id := subs[id].(received := subs[id].received + [subs[id].queued[0]], queued := subs[id].queued[1..])]
      else subs
  }

  function Run(subs: Subs, acts: seq<Act>): Subs
    decreases |acts|
  {
    if acts == [] then subs else Run(Step(subs, acts[0]), acts[1..])
  }

  /** The subscriber is there throughout. */
  predicate Stays(id: SubId, acts: seq<Act>) {
    forall a | a in acts :: a != Leave(id) && (a.Join? ==> a.id != id)
  }

  function Published(a: Act, org: OrgId): seq<string> {
    if a.Publish? && a.org == org then [a.data] else []
  }

  /** Everything published for the organization. */
  function AllEvents(acts: seq<Act>, org: OrgId): seq<string> {
    if acts == [] then [] else Published(acts[0], org) + AllEvents(acts[1..], org)
  }

  /** Of these, the ones published while the subscriber's queue was not full. */
  function Kept(subs: Subs, acts: seq<Act>, id: SubId): seq<string>
    requires id in subs && Stays(id, acts)
    decreases |acts|
  {
    if acts == [] then []
    else
      Gained(subs[id], acts[0]) + Kept(Step(subs, acts[0]), acts[1..], id)
  }

  predicate WithinLimit(subs: Subs) {
    forall id | id in subs :: |subs[id].queued| <= LOCAL_QUEUE_LIMIT
  }

  lemma {:induction false} QueuesStayBounded(subs: Subs, acts: seq<Act>)
    requires WithinLimit(subs)
    ensures WithinLimit(Run(subs, acts))
    decreases |acts|
  {
    if acts != [] {
      assert WithinLimit(Step(subs, acts[0]));
      QueuesStayBounded(Step(subs, acts[0]), acts[1..]);
    }
  }

  /** What one act adds to what a subscriber has received or has waiting. */
  function Gained(sub: Sub, a: Act): seq<string> {
    if |sub.queued| < LOCAL_QUEUE_LIMIT then Published(a, sub.org) else []
  }

  lemma StepGains(subs: Subs, a: Act, id: SubId)
    requires id in subs && a != Leave(id) && (a.Join? ==> a.id != id)
    ensures var sub, next := subs[id], Step(subs, a)[id];
      && next.org == sub.org && sub.received <= next.received
      && next.received + next.queued == (sub.received + sub.queued) + Gained(sub, a)
  {
  }

  /** Received followed by queued grows by exactly the kept events of the subscriber's own
      organization, in order of publication. */
  lemma {:induction false} DeliveryIsExact(subs: Subs, acts: seq<Act>, id: SubId)
    requires id in subs && Stays(id, acts)
    ensures var later := Run(subs, acts);
      && id in later && later[id].org == subs[id].org
      && subs[id].received <= later[id].received
      && later[id].received + later[id].queued == (subs[id].received + subs[id].queued) + Kept(subs, acts, id)
    decreases |acts|
  {
    if acts != [] {
      assert acts[0] in acts;
      StepGains(subs, acts[0], id);
      DeliveryIsExact(Step(subs, acts[0]), acts[1..], id);
      Associative(subs[id].received + subs[id].queued, Gained(subs[id], acts[0]),
                  Kept(Step(subs, acts[0]), acts[1..], id));
    }
  }

  /* ---------- when nothing is lost ---------- */

  /** Events published less events taken, where taking from an empty queue waits. */
  function NextBacklog(a: Act, id: SubId, org: OrgId, n: nat): nat {
    if a.Publish? && a.org == org then n + 1
    else if a == Take(id) && n > 0 then n - 1
    else n
  }

  function Backlog(acts: seq<Act>, id: SubId, org: OrgId, n: nat): nat
    decreases |acts|
  {
    if acts == [] then n else Backlog(acts[1..], id, org, NextBacklog(acts[0], id, org, n))
  }

  /** The consumer never falls more than the limit behind. */
  ghost predicate KeepsUp(acts: seq<Act>, id: SubId, org: OrgId, start: nat) {
    forall k | 0 <= k <= |acts| :: Backlog(acts[..k], id, org, start) <= LOCAL_QUEUE_LIMIT
  }

  lemma {:induction false} KeptIsNoLonger(subs: Subs, acts: seq<Act>, id: SubId)
    requires id in subs && Stays(id, acts)
    ensures |Kept(subs, acts, id)| <= |AllEvents(acts, subs[id].org)|
    decreases |acts|
  {
    if acts != [] {
      assert acts[0] in acts;
      KeptIsNoLonger(Step(subs, acts[0]), acts[1..], id);
    }
  }

  lemma KeepsUpCons(acts: seq<Act>, id: SubId, org: OrgId, n: nat)
    requires acts != [] && n <= LOCAL_QUEUE_LIMIT
    ensures KeepsUp(acts, id, org, n) <==> KeepsUp(acts[1..], id, org, NextBacklog(acts[0], id, org, n))
  {
    var next := NextBacklog(acts[0], id, org, n);
    forall k | 1 <= k <= |acts|
      ensures Backlog(acts[..k], id, org, n) == Backlog(acts[1..][..k - 1], id, org, next)
    {
      assert acts[..k][1..] == acts[1..][..k - 1];
    }
    if KeepsUp(acts, id, org, n) {
      forall k | 0 <= k <= |acts[1..]|
        ensures Backlog(acts[1..][..k], id, org, next) <= LOCAL_QUEUE_LIMIT
      {
        assert Backlog(acts[..k + 1], id, org, n) <= LOCAL_QUEUE_LIMIT;
      }
    }
    if KeepsUp(acts[1..], id, org, next) {
      forall k | 0 <= k <= |acts|
        ensures Backlog(acts[..k], id, org, n) <= LOCAL_QUEUE_LIMIT
      {
        if k > 0 { assert Backlog(acts[1..][..k - 1], id, org, next) <= LOCAL_QUEUE_LIMIT; }
      }
    }
  }

  lemma Cancel(p: seq<string>, x: seq<string>, y: seq<string>)
    ensures p + x == p + y <==> x == y
  {
    assert (p + x)[|p|..] == x && (p + y)[|p|..] == y;
  }

  /** Once an event met a full queue, what is kept stays behind, and so does the consumer. */
  lemma OneLost(subs: Subs, acts: seq<Act>, id: SubId, n: nat)
    requires id in subs && Stays(id, acts) && n > LOCAL_QUEUE_LIMIT
    ensures |Kept(subs, acts, id)| <= |AllEvents(acts, subs[id].org)|
    ensures !KeepsUp(acts, id, subs[id].org, n)
  {
    KeptIsNoLonger(subs, acts, id);
    assert acts[..0] == [];
    assert Backlog(acts[..0], id, subs[id].org, n) == n;
  }

  /** A subscriber loses nothing if and only if it never falls more than the limit behind. */
  lemma {:induction false} LosslessIff(subs: Subs, acts: seq<Act>, id: SubId)
    requires id in subs && Stays(id, acts) && |subs[id].queued| <= LOCAL_QUEUE_LIMIT
    ensures Kept(subs, acts, id) == AllEvents(acts, subs[id].org)
            <==> KeepsUp(acts, id, subs[id].org, |subs[id].queued|)
    decreases |acts|
  {
    var org, n := subs[id].org, |subs[id].queued|;
    if acts == [] {
      assert acts[..0] == [];
    } else {
      assert acts[0] in acts;
      var next, rest := Step(subs, acts[0]), acts[1..];
      KeepsUpCons(acts, id, org, n);
      if acts[0].Publish? && acts[0].org == org && n == LOCAL_QUEUE_LIMIT {
        OneLost(next, rest, id, n + 1);
        assert Kept(subs, acts, id) == Kept(next, rest, id);
        assert AllEvents(acts, org) == [acts[0].data] + AllEvents(rest, org);
      } else {
        LosslessIff(next, rest, id);
        Cancel(Published(acts[0], org), Kept(next, rest, id), AllEvents(rest, org));
      }
    }
  }

  /* ---------- what is received ---------- */

  function PublishedFor(org: OrgId): Act -> Option<string> {
    (a: Act) => if a.Publish? && a.org == org then Some(a.data) else None
  }

  /** Every event of the organization counts, once and in its place, and no other. */
  lemma {:induction false} AllEventsMeaning(acts: seq<Act>, org: OrgId)
    ensures AllEvents(acts, org) == Picked(acts, PublishedFor(org))
  {
    if acts != [] { AllEventsMeaning(acts[1..], org); }
  }

  /** Taking hands over the oldest event that waits, and waits itself when there is none. */
  lemma TakeHandsOver(subs: Subs, id: SubId)
    requires id in subs
    ensures var sub, next := subs[id], Step(subs, Take(id))[id];
      if sub.queued == [] then next == sub
      else next.queued == sub.queued[1..] && next.received == sub.received + [sub.queued[0]]
    ensures forall i | i in subs && i != id :: i in Step(subs, Take(id)) && Step(subs, Take(id))[i] == subs[i]
  {
  }

  /** A subscriber that takes as often as events wait has received them all. */
  lemma {:induction false} TakingDrains(subs: Subs, id: SubId)
    requires id in subs
    ensures var takes := seq(|subs[id].queued|, _ => Take(id));
      && id in Run(subs, takes) && Run(subs, takes)[id].queued == []
      && Run(subs, takes)[id].received == subs[id].received + subs[id].queued
    decreases |subs[id].queued|
  {
    var n := |subs[id].queued|;
    var takes := seq(n, _ => Take(id));
    if n > 0 {
      var next := Step(subs, Take(id));
      TakeHandsOver(subs, id);
      assert takes[1..] == seq(n - 1, _ => Take(id));
      TakingDrains(next, id);
      assert (subs[id].received + [subs[id].queued[0]]) + subs[id].queued[1..] == subs[id].received + subs[id].queued;
    }
  }

  /** From its start on a subscriber that keeps up has received or queued every event published for its
      organization since, and none from before. */
  lemma FromTheStart(subs: Subs, id: SubId, org: OrgId, acts: seq<Act>)
    requires Stays(id, acts) && KeepsUp(acts, id, org, 0)
    ensures var later := Run(Step(subs, Join(id, org)), acts);
      id in later && later[id].org == org && later[id].received + later[id].queued == AllEvents(acts, org)
  {
    var joined := Step(subs, Join(id, org));
    DeliveryIsExact(joined, acts, id);
    LosslessIff(joined, acts, id);
    assert ([] + []) + Kept(joined, acts, id) == Kept(joined, acts, id);
  }

  /** Who leaves is gone, and nobody else notices. */
  lemma LeavingConcernsOne(subs: Subs, id: SubId)
    ensures var left := Step(subs, Leave(id));
      id !in left && forall i | i != id :: (i in left <==> i in subs) && (i in subs ==> left[i] == subs[i])
  {
  }
}
