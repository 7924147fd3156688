/** Webhook notifications: subscriptions per event type, a bounded queue that drops when full, and its dispatcher. */
module Webhooks {
  import opened Wrappers

  datatype EventType = RequestBlocked | CaptchaRequired | CaptchaVerified | ChallengeRequired | RequestAllowed

  datatype Event = Event(kind: EventType, time: int, ip: string, action: string, reason: string)

  datatype Subscription = Subscription(url: string, events: seq<string>)

  function ParseEventType(s: string): Option<EventType> {
    match s
    case "request_blocked" => Some(RequestBlocked)
    case "captcha_required" => Some(CaptchaRequired)
    case "captcha_verified" => Some(CaptchaVerified)
    case "challenge_required" => Some(ChallengeRequired)
    case "request_allowed" => Some(RequestAllowed)
    case _ => None
  }

  /** The name an event type goes by in configurations and payloads. */
  function NameOf(t: EventType): string {
    match t
    case RequestBlocked => "request_blocked"
    case CaptchaRequired => "captcha_required"
    case CaptchaVerified => "captcha_verified"
    case ChallengeRequired => "challenge_required"
    case RequestAllowed => "request_allowed"
  }

  /** Exactly the five names are known, each for its own type. */
  lemma NamesRoundTrip(s: string, t: EventType)
    ensures ParseEventType(s) == Some(t) <==> s == NameOf(t)
  {
  }

  function TypeForAction(action: string): Option<EventType> {
    match action
    case "allow" => Some(RequestAllowed)
    case "ban" => Some(RequestBlocked)
    case "deny" => Some(RequestBlocked)
    case "captcha" => Some(CaptchaRequired)
    case "challenge" => Some(ChallengeRequired)
    case _ => None
  }

  /** Which actions are announced, and as what. */
  lemma AnnouncedAs(action: string)
    ensures TypeForAction(action) == Some(RequestAllowed) <==> action == "allow"
    ensures TypeForAction(action) == Some(RequestBlocked) <==> action == "ban" || action == "deny"
    ensures TypeForAction(action) == Some(CaptchaRequired) <==> action == "captcha"
    ensures TypeForAction(action) == Some(ChallengeRequired) <==> action == "challenge"
    ensures TypeForAction(action) != Some(CaptchaVerified)
  {
  }

  // ----- subsequences -----

  /** The positions `at`, strictly increasing, pick `a` out of `b`. */
  ghost predicate Picks<T>(at: seq<nat>, a: seq<T>, b: seq<T>) {
    && |at| == |a|
    && (forall i :: 0 <= i < |a| ==> at[i] < |b| && b[at[i]] == a[i])
    && (forall i, j :: 0 <= i < j < |a| ==> at[i] < at[j])
  }

  /** `a` is `b` with some elements left out. */
  ghost predicate IsSubsequence<T>(a: seq<T>, b: seq<T>) {
    exists at :: Picks(at, a, b)
  }

  lemma NothingIsSubsequence<T>(b: seq<T>)
    ensures IsSubsequence([], b)
  {
    assert Picks([], [], b);
  }

  lemma SubsequenceSnoc<T>(a: seq<T>, b: seq<T>, x: T)
    requires IsSubsequence(a, b)
    ensures IsSubsequence(a + [x], b + [x]) && IsSubsequence(a, b + [x])
  {
    var at: seq<nat> :| Picks(at, a, b);
    assert Picks(at, a, b + [x]);
    assert Picks(at + [|b|], a + [x], b + [x]);
  }

  // ----- subscriptions -----

  function AddURL(urls: seq<string>, url: string): seq<string> {
    if url in urls then urls else urls + [url]
  }

  /** The URLs as often and in the order they are mentioned for a type. */
  function MentionsIn(url: string, events: seq<string>, t: EventType): seq<string> {
    if events == [] then []
    else
      MentionsIn(url, events[..|events| - 1], t) + if ParseEventType(events[|events| - 1]) == Some(t) then [url] else []
  }

  function Mentions(subs: seq<Subscription>, t: EventType): seq<string> {
    if subs == [] then []
    else Mentions(subs[..|subs| - 1], t) + MentionsIn(subs[|subs| - 1].url, subs[|subs| - 1].events, t)
  }

  /** Each URL once, where it was first mentioned. */
  function Distinct(urls: seq<string>): seq<string> {
    if urls == [] then [] else AddURL(Distinct(urls[..|urls| - 1]), urls[|urls| - 1])
  }

  lemma {:induction false} DistinctMeaning(urls: seq<string>)
    ensures var d := Distinct(urls);
      && (forall i, j :: 0 <= i < j < |d| ==> d[i] != d[j])
      && (forall u :: u in d <==> u in urls)
      && IsSubsequence(d, urls)
  {
    if urls == [] {
      NothingIsSubsequence(urls);
    } else {
      var init, last := urls[..|urls| - 1], urls[|urls| - 1];
      DistinctMeaning(init);
      assert urls == init + [last];
      SubsequenceSnoc(Distinct(init), init, last);
    }
  }

  /** First mention decides the order: the distinct URLs of a longer list begin with those of a shorter. */
  lemma {:induction false} DistinctKeepsOrder(urls: seq<string>, n: nat)
    requires n <= |urls|
    ensures Distinct(urls[..n]) <= Distinct(urls)
  {
    if n < |urls| {
      DistinctKeepsOrder(urls[..|urls| - 1], n);
      assert urls[..|urls| - 1][..n] == urls[..n];
    } else {
      assert urls[..n] == urls;
    }
  }

  lemma DistinctSnoc(urls: seq<string>, url: string)
    ensures Distinct(urls + [url]) == AddURL(Distinct(urls), url)
  {
  }

  function URLsFor(byEvent: map<EventType, seq<string>>, t: EventType): seq<string> {
    if t in byEvent then byEvent[t] else []
  }

  /** Mentions in the first `i` subscriptions and the first `k` events of the next. */
  function MentionsUpTo(subs: seq<Subscription>, i: nat, k: nat, t: EventType): seq<string>
    requires i < |subs| && k <= |subs[i].events|
  {
    Mentions(subs[..i], t) + MentionsIn(subs[i].url, subs[i].events[..k], t)
  }

  lemma MentionsStart(subs: seq<Subscription>, i: nat, t: EventType)
    requires i < |subs|
    ensures MentionsUpTo(subs, i, 0, t) == Mentions(subs[..i], t)
  {
  }

  lemma MentionsNext(subs: seq<Subscription>, i: nat, k: nat, t: EventType)
    requires i < |subs| && k < |subs[i].events|
    ensures Distinct(MentionsUpTo(subs, i, k + 1, t))
      == if ParseEventType(subs[i].events[k]) == Some(t) then AddURL(Distinct(MentionsUpTo(subs, i, k, t)), subs[i].url)
         else Distinct(MentionsUpTo(subs, i, k, t))
  {
    var sub, before := subs[i], MentionsUpTo(subs, i, k, t);
    assert sub.events[..k + 1][..k] == sub.events[..k];
    if ParseEventType(sub.events[k]) == Some(t) {
      assert MentionsUpTo(subs, i, k + 1, t) == before + [sub.url];
      DistinctSnoc(before, sub.url);
    } else {
      assert MentionsUpTo(subs, i, k + 1, t) == before;
    }
  }

  lemma MentionsEnd(subs: seq<Subscription>, i: nat, t: EventType)
    requires i < |subs|
    ensures MentionsUpTo(subs, i, |subs[i].events|, t) == Mentions(subs[..i + 1], t)
  {
    assert subs[..i + 1][..i] == subs[..i];
    assert subs[i].events[..|subs[i].events|] == subs[i].events;
  }

  /** A URL is notified of a type exactly if some subscription to it lists the type's name. */
  lemma SubscriberMeaning(subs: seq<Subscription>, t: EventType, url: string)
    ensures url in Distinct(Mentions(subs, t)) <==> exists i :: 0 <= i < |subs| && subs[i].url == url && NameOf(t) in subs[i].events
  {
    DistinctMeaning(Mentions(subs, t));
    MentionsMeaning(subs, t, url);
  }

  lemma {:induction false} MentionsInMeaning(url: string, events: seq<string>, t: EventType, u: string)
    ensures u in MentionsIn(url, events, t) <==> u == url && NameOf(t) in events
  {
    if events != [] {
      MentionsInMeaning(url, events[..|events| - 1], t, u);
      NamesRoundTrip(events[|events| - 1], t);
      assert events == events[..|events| - 1] + [events[|events| - 1]];
    }
  }

  lemma {:induction false} MentionsMeaning(subs: seq<Subscription>, t: EventType, u: string)
    ensures u in Mentions(subs, t) <==> exists i :: 0 <= i < |subs| && subs[i].url == u && NameOf(t) in subs[i].events
  {
    if subs != [] {
      var n := |subs| - 1;
      MentionsMeaning(subs[..n], t, u);
      MentionsInMeaning(subs[n].url, subs[n].events, t, u);
      assert forall i :: 0 <= i < n ==> subs[..n][i] == subs[i];
    }
  }

  /** Earlier subscriptions come first. */
  lemma {:induction false} SubscribersKeepOrder(subs: seq<Subscription>, t: EventType, n: nat)
    requires n <= |subs|
    ensures Distinct(Mentions(subs[..n], t)) <= Distinct(Mentions(subs, t))
  {
    if n < |subs| {
      var init := subs[..|subs| - 1];
      SubscribersKeepOrder(init, t, n);
      assert init[..n] == subs[..n];
      DistinctKeepsOrder(Mentions(subs, t), |Mentions(init, t)|);
      assert Mentions(subs, t)[..|Mentions(init, t)|] == Mentions(init, t);
    } else {
      assert subs[..n] == subs;
    }
  }

  /** An unknown event name changes nothing; a known one adds the URL unless it is there. */
  method Subscribe(byEvent: map<EventType, seq<string>>, url: string, name: string) returns (r: map<EventType, seq<string>>)
    ensures forall t ::
      URLsFor(r, t) == if ParseEventType(name) == Some(t) then AddURL(URLsFor(byEvent, t), url) else URLsFor(byEvent, t)
  {
    r := byEvent;
    var t := ParseEventType(name);
    if t.Some? && url !in URLsFor(byEvent, t.value) {
      r := byEvent[t.value := URLsFor(byEvent, t.value) + [url]];
    }
  }

  /** Each type's URLs are its distinct mentions. */
  ghost predicate SubscribedAs(byEvent: map<EventType, seq<string>>, subs: seq<Subscription>) {
    forall t :: URLsFor(byEvent, t) == Distinct(Mentions(subs, t))
  }

  /** The inner loop: the events of one subscription. */
  method SubscribeAll(byEvent: map<EventType, seq<string>>, subs: seq<Subscription>, i: nat)
    returns (r: map<EventType, seq<string>>)
    requires i < |subs|
    requires forall t :: URLsFor(byEvent, t) == Distinct(MentionsUpTo(subs, i, 0, t))
    ensures forall t :: URLsFor(r, t) == Distinct(MentionsUpTo(subs, i, |subs[i].events|, t))
  {
    r := byEvent;
    for k := 0 to |subs[i].events|
      invariant forall t :: URLsFor(r, t) == Distinct(MentionsUpTo(subs, i, k, t))
    {
      forall t {
        MentionsNext(subs, i, k, t);
      }
      r := Subscribe(r, subs[i].url, subs[i].events[k]);
    }
  }

  /** Every type gets its distinct URLs in first-mention order. */
  method BuildSubsByEvent(subs: seq<Subscription>) returns (byEvent: map<EventType, seq<string>>)
    ensures SubscribedAs(byEvent, subs)
  {
    byEvent := map[];
    for i := 0 to |subs|
      invariant forall t :: URLsFor(byEvent, t) == Distinct(Mentions(subs[..i], t))
    {
      forall t {
        MentionsStart(subs, i, t);
      }
      forall t {
        MentionsEnd(subs, i, t);
      }
      byEvent := SubscribeAll(byEvent, subs, i);
    }
    assert subs[..|subs|] == subs;
  }

  // ----- the queue -----

  /** The event a checked request gives rise to, if its type has subscribers. */
  function CheckedEvents(byEvent: map<EventType, seq<string>>, ip: string, action: string, reason: string, now: int): seq<Event> {
    match TypeForAction(action)
    case None => []
    case Some(t) => if URLsFor(byEvent, t) == [] then [] else [Event(t, now, ip, action, reason)]
  }

  /** At most one event, for an action that is announced and has subscribers, with the request's own particulars. */
  lemma CheckedEventMeaning(byEvent: map<EventType, seq<string>>, ip: string, action: string, reason: string, now: int)
    ensures var es := CheckedEvents(byEvent, ip, action, reason, now);
      && |es| <= 1
      && (es != [] <==> TypeForAction(action).Some? && URLsFor(byEvent, TypeForAction(action).value) != [])
      && (es != [] ==> Some(es[0].kind) == TypeForAction(action) && es[0] == Event(es[0].kind, now, ip, action, reason))
  {
  }

  /** One delivery attempt for each URL subscribed to the event's type. */
  function Deliveries(byEvent: map<EventType, seq<string>>, e: Event): seq<(string, Event)> {
    var urls := URLsFor(byEvent, e.kind);
    seq(|urls|, i requires 0 <= i < |urls| => (urls[i], e))
  }

  function AllDeliveries(byEvent: map<EventType, seq<string>>, events: seq<Event>): seq<(string, Event)> {
    if events == [] then []
    else AllDeliveries(byEvent, events[..|events| - 1]) + Deliveries(byEvent, events[|events| - 1])
  }

  class Service {
    const byEvent: map<EventType, seq<string>>
    const capacity: nat
    var queue: seq<Event>
    var sent: seq<(string, Event)>
    /** Subscribed notifications in order, those accepted, those dispatched, and how many were dropped. */
    ghost var notified: seq<Event>
    ghost var accepted: seq<Event>
    ghost var dispatched: seq<Event>
    ghost var dropped: nat

    ghost predicate Valid()
      reads this
    {
      && |queue| <= capacity
      && accepted == dispatched + queue
      && IsSubsequence(accepted, notified)
      && |accepted| + dropped == |notified|
      && sent == AllDeliveries(byEvent, dispatched)
    }

    /** A buffer size of zero means 100. */
    constructor (subs: seq<Subscription>, bufferSize: nat)
      ensures Valid() && queue == [] && notified == [] && dispatched == [] && dropped == 0
      ensures SubscribedAs(byEvent, subs)
      ensures capacity == if bufferSize == 0 then 100 else bufferSize
    {
      var m := BuildSubsByEvent(subs);
      byEvent := m;
      capacity := if bufferSize == 0 then 100 else bufferSize;
      queue, sent, notified, accepted, dispatched, dropped := [], [], [], [], [], 0;
      new;
      NothingIsSubsequence(notified);
    }

    /** Accepted if the buffer has room, dropped if and only if it is full. */
    method Enqueue(e: Event)
      requires Valid()
      modifies this
      ensures Valid() && notified == old(notified) + [e] && dispatched == old(dispatched) && sent == old(sent)
      ensures queue == if |old(queue)| < capacity then old(queue) + [e] else old(queue)
      ensures dropped == if |old(queue)| < capacity then old(dropped) else old(dropped) + 1
    {
      SubsequenceSnoc(accepted, notified, e);
      if |queue| < capacity {
        queue := queue + [e];
        accepted := accepted + [e];
      } else {
        dropped := dropped + 1;
      }
      notified := notified + [e];
    }

    method NotifyCheckedRequest(ip: string, action: string, reason: string, now: int)
      requires Valid()
      modifies this
      ensures Valid() && dispatched == old(dispatched) && sent == old(sent)
      ensures var es := CheckedEvents(byEvent, ip, action, reason, now);
        && notified == old(notified) + es && queue == (if |old(queue)| < capacity then old(queue) + es else old(queue))
        && dropped == old(dropped) + if |old(queue)| < capacity then 0 else |es|
    {
      var t := TypeForAction(action);
      if t.None? || URLsFor(byEvent, t.value) == [] {
        return;
      }
      Enqueue(Event(t.value, now, ip, action, reason));
    }

    method NotifyCaptchaVerified(ip: string, now: int)
      requires Valid()
      modifies this
      ensures Valid() && dispatched == old(dispatched) && sent == old(sent)
      ensures var es := if URLsFor(byEvent, CaptchaVerified) == [] then []
        else [Event(CaptchaVerified, now, ip, "allow", "captcha verified")];
        && notified == old(notified) + es && queue == (if |old(queue)| < capacity then old(queue) + es else old(queue))
        && dropped == old(dropped) + if |old(queue)| < capacity then 0 else |es|
    {
      if URLsFor(byEvent, CaptchaVerified) == [] {
        return;
      }
      Enqueue(Event(CaptchaVerified, now, ip, "allow", "captcha verified"));
    }

    /** One attempt for each URL of the event's type, in order. */
    method Dispatch(e: Event)
      modifies this`sent
      ensures sent == old(sent) + Deliveries(byEvent, e)
      ensures |sent| == |old(sent)| + |URLsFor(byEvent, e.kind)|
      ensures forall i :: 0 <= i < |URLsFor(byEvent, e.kind)| ==> sent[|old(sent)| + i] == (URLsFor(byEvent, e.kind)[i], e)
    {
      var urls := URLsFor(byEvent, e.kind);
      for i := 0 to |urls|
        invariant sent == old(sent) + Deliveries(byEvent, e)[..i]
      {
        sent := sent + [(urls[i], e)];
      }
      assert Deliveries(byEvent, e)[..|urls|] == Deliveries(byEvent, e);
    }

    /** One round of Start: take the oldest event and send it once to each of its URLs, in order. */
    method DispatchNext()
      requires Valid() && queue != []
      modifies this
      ensures Valid() && notified == old(notified) && accepted == old(accepted) && dropped == old(dropped)
      ensures queue == old(queue)[1..] && dispatched == old(dispatched) + [old(queue)[0]]
      ensures sent == old(sent) + Deliveries(byEvent, old(queue)[0])
    {
      var e := queue[0];
      queue := queue[1..];
      Dispatch(e);
      AllDeliveriesSnoc(byEvent, dispatched, e);
      dispatched := dispatched + [e];
      assert accepted == dispatched + queue;
    }
  }

  lemma AllDeliveriesSnoc(byEvent: map<EventType, seq<string>>, events: seq<Event>, e: Event)
    ensures AllDeliveries(byEvent, events + [e]) == AllDeliveries(byEvent, events) + Deliveries(byEvent, e)
  {
    assert (events + [e])[..|events|] == events;
  }
}
