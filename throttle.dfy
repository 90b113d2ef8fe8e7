/**
  `ThrottleMiddleware` (bot/middlewares/throttle.py): per-user throttling of
  incoming chat events. The middleware remembers, per user id, the time of
  the last request it let through; a request from the same user that comes
  less than `rate` seconds after it is dropped (the handler is not called),
  any other request with a user id stamps the current time and reaches the
  handler, and an event without one reaches the handler untouched.

  Events are reduced to who sent them; the monotonic clock reading is a
  parameter.
*/
module Throttle {
  import opened Wrappers

  datatype User = User(id: int)

  datatype Message = Message(fromUser: Option<User>)

  datatype CallbackQuery = CallbackQuery(fromUser: Option<User>)

  /**
    What reaches the middleware: an `Update` wrapping an optional message
    and an optional callback query, a bare `Message`, a bare `CallbackQuery`,
    or any other Telegram object.
  */
  datatype Event =
    | UpdateEvent(message: Option<Message>, callbackQuery: Option<CallbackQuery>)
    | MessageEvent(msg: Message)
    | CallbackEvent(query: CallbackQuery)
    | OtherEvent

  /** The sender of a message or callback query, when it has one. */
  function SenderOf(from: Option<User>): (uid: Option<int>)
    ensures uid.Some? <==> from.Some?
    ensures from.Some? ==> uid.value == from.value.id
  {
    match from
    case Some(u) => Some(u.id)
    case None => None
  }

  /**
    User-id extraction as the middleware is written: an `Update` is
    attributed to its message's sender when there is one and to its
    callback query's sender otherwise, a bare message to its sender. A bare
    `CallbackQuery` gets a reply function but never a user id, so it is
    never throttled.
  */
  function UserId(e: Event): (uid: Option<int>)
    ensures e.UpdateEvent? && e.message.Some? && e.message.value.fromUser.Some? ==>
              uid == Some(e.message.value.fromUser.value.id)
    ensures e.UpdateEvent? && !(e.message.Some? && e.message.value.fromUser.Some?) ==>
              uid == (if e.callbackQuery.Some? then SenderOf(e.callbackQuery.value.fromUser) else None)
    ensures e.MessageEvent? ==> uid == SenderOf(e.msg.fromUser)
    ensures e.CallbackEvent? || e.OtherEvent? ==> uid == None
  {
    match e
    case UpdateEvent(m, cq) =>
      if m.Some? && m.value.fromUser.Some? then SenderOf(m.value.fromUser)
      else if cq.Some? && cq.value.fromUser.Some? then SenderOf(cq.value.fromUser)
      else None
    case MessageEvent(m) => SenderOf(m.fromUser)
    case CallbackEvent(_) => None
    case OtherEvent => None
  }

  /**
    User-id extraction as the middleware evidently intends it: the same as
    `UserId`, except that a bare callback query is attributed to its sender.
  */
  function IntendedUserId(e: Event): (uid: Option<int>)
    ensures e.CallbackEvent? ==> uid == SenderOf(e.query.fromUser)
    ensures !e.CallbackEvent? ==> uid == UserId(e)
  {
    match e
    case CallbackEvent(q) => SenderOf(q.fromUser)
    case _ => UserId(e)
  }

  /** The outcome of one request: whether the handler runs, and the new map. */
  datatype Decision = Decision(handled: bool, last: map<int, real>)

  /**
    The accept/reject rule for a request from `uid` at time `now`: only a
    request from a sender seen less than `rate` ago is dropped, and only the
    sender's own entry can change.
  */
  function Admit(last: map<int, real>, uid: Option<int>, now: real, rate: real): (d: Decision)
    ensures !d.handled ==> uid.Some? && uid.value in last && d.last == last
    ensures d.last.Keys == last.Keys + (if d.handled && uid.Some? then {uid.value} else {})
    ensures forall id :: id in last && uid != Some(id) ==> d.last[id] == last[id]
  {
    match uid
    case None => Decision(true, last)
    case Some(id) =>
      if id in last && now - last[id] < rate then Decision(false, last)
      else Decision(true, last[id := now])
  }

  /** One call of the middleware on `e` at time `now`, as written. */
  function Step(last: map<int, real>, e: Event, now: real, rate: real): (d: Decision)
    ensures UserId(e).None? ==> d == Decision(true, last)
    ensures d.handled && UserId(e).Some? ==> d.last == last[UserId(e).value := now]
  {
    Admit(last, UserId(e), now, rate)
  }

  /** One call of the middleware with the sender of a bare callback query extracted. */
  function IntendedStep(last: map<int, real>, e: Event, now: real, rate: real): (d: Decision)
    ensures !e.CallbackEvent? ==> d == Step(last, e, now, rate)
  {
    Admit(last, IntendedUserId(e), now, rate)
  }

  /** A request within `rate` of the sender's last accepted one is dropped and changes nothing. */
  lemma TooSoonIsRejected(last: map<int, real>, e: Event, now: real, rate: real)
    requires UserId(e).Some? && UserId(e).value in last
    requires now - last[UserId(e).value] < rate
    ensures !Step(last, e, now, rate).handled
    ensures Step(last, e, now, rate).last == last
  {
  }

  /** Any other request from a known sender stamps `now` and reaches the handler. */
  lemma OtherwiseAcceptedAndStamped(last: map<int, real>, e: Event, now: real, rate: real)
    requires UserId(e).Some?
    requires UserId(e).value in last ==> now - last[UserId(e).value] >= rate
    ensures Step(last, e, now, rate).handled
    ensures Step(last, e, now, rate).last == last[UserId(e).value := now]
  {
  }

  /** Exactly `rate` seconds after the last accepted request is soon enough: the comparison is strict. */
  lemma ExactlyRateIsAccepted(last: map<int, real>, e: Event, rate: real)
    requires UserId(e).Some? && UserId(e).value in last
    ensures Step(last, e, last[UserId(e).value] + rate, rate).handled
  {
  }

  /** Only the sender's own entry can change. */
  lemma OtherUsersUntouched(last: map<int, real>, e: Event, now: real, rate: real, other: int)
    requires UserId(e) != Some(other)
    ensures other in Step(last, e, now, rate).last <==> other in last
    ensures other in last ==> Step(last, e, now, rate).last[other] == last[other]
  {
  }

  /** An event without a sender always reaches the handler and leaves the map alone. */
  lemma NoSenderPassesThrough(last: map<int, real>, e: Event, now: real, rate: real)
    requires UserId(e).None?
    ensures Step(last, e, now, rate) == Decision(true, last)
  {
  }

  // ---------------------------------------------------------------------
  // Runs: the middleware applied to a sequence of requests, one by one.
  // ---------------------------------------------------------------------

  datatype Request = Request(event: Event, now: real)

  /** The map after the first n requests. */
  function StateAfter(last0: map<int, real>, reqs: seq<Request>, n: nat, rate: real): map<int, real>
    requires n <= |reqs|
  {
    if n == 0 then last0
    else Step(StateAfter(last0, reqs, n - 1, rate), reqs[n - 1].event, reqs[n - 1].now, rate).last
  }

  /** Request j reaches the handler. */
  predicate Handled(last0: map<int, real>, reqs: seq<Request>, j: nat, rate: real)
    requires j < |reqs|
  {
    Step(StateAfter(last0, reqs, j, rate), reqs[j].event, reqs[j].now, rate).handled
  }

  /** Request j was sent by user u and let through. */
  predicate AcceptedFor(last0: map<int, real>, reqs: seq<Request>, j: nat, rate: real, u: int)
    requires j < |reqs|
  {
    UserId(reqs[j].event) == Some(u) && Handled(last0, reqs, j, rate)
  }

  /** The index of u's last accepted request among the first n, if any. */
  function LastAccepted(last0: map<int, real>, reqs: seq<Request>, n: nat, rate: real, u: int): (r: Option<nat>)
    requires n <= |reqs|
    ensures r.Some? ==> r.value < n && AcceptedFor(last0, reqs, r.value, rate, u)
    ensures r.Some? ==> forall k :: r.value < k < n ==> !AcceptedFor(last0, reqs, k, rate, u)
    ensures r.None? ==> forall k :: 0 <= k < n ==> !AcceptedFor(last0, reqs, k, rate, u)
  {
    if n == 0 then None
    else if AcceptedFor(last0, reqs, n - 1, rate, u) then Some(n - 1)
    else LastAccepted(last0, reqs, n - 1, rate, u)
  }

  /**
    After any run, a user's entry is the time of that user's last accepted
    request, or what it was before the run when none was accepted:
    rejected requests never refresh it.
  */
  lemma {:induction false} StampIsLastAccepted(last0: map<int, real>, reqs: seq<Request>, n: nat, rate: real, u: int)
    requires n <= |reqs|
    ensures var s := StateAfter(last0, reqs, n, rate);
            match LastAccepted(last0, reqs, n, rate, u)
            case Some(i) => u in s && s[u] == reqs[i].now
            case None => (u in s <==> u in last0) && (u in last0 ==> s[u] == last0[u])
  {
    if n > 0 {
      StampIsLastAccepted(last0, reqs, n - 1, rate, u);
    }
  }

  /**
    Two consecutive accepted requests of the same user are at least `rate`
    seconds apart, however many of that user's requests were dropped in
    between.
  */
  lemma AcceptedRequestsAreSpaced(last0: map<int, real>, reqs: seq<Request>, rate: real, u: int, i: nat, j: nat)
    requires i < j < |reqs|
    requires AcceptedFor(last0, reqs, i, rate, u) && AcceptedFor(last0, reqs, j, rate, u)
    requires forall k :: i < k < j ==> !AcceptedFor(last0, reqs, k, rate, u)
    ensures reqs[j].now - reqs[i].now >= rate
  {
    assert LastAccepted(last0, reqs, j, rate, u) == Some(i);
    StampIsLastAccepted(last0, reqs, j, rate, u);
  }

  /**
    With a non-negative rate, any two accepted requests of the same user,
    consecutive or not, are at least `rate` seconds apart.
  */
  lemma {:induction false} AnyAcceptedRequestsAreSpaced(last0: map<int, real>, reqs: seq<Request>, rate: real, u: int, i: nat, j: nat)
    requires rate >= 0.0
    requires i < j < |reqs|
    requires AcceptedFor(last0, reqs, i, rate, u) && AcceptedFor(last0, reqs, j, rate, u)
    ensures reqs[j].now - reqs[i].now >= rate
    decreases j - i
  {
    var m := LastAccepted(last0, reqs, j, rate, u).value;
    AcceptedRequestsAreSpaced(last0, reqs, rate, u, m, j);
    if m != i {
      AnyAcceptedRequestsAreSpaced(last0, reqs, rate, u, i, m);
    }
  }

  /**
    When none of a user's requests in a run got through, the next request
    of that user at least `rate` after the last accepted time from before
    the run is accepted.
  */
  lemma RejectionsDoNotRefresh(last0: map<int, real>, reqs: seq<Request>, rate: real, e: Event, now: real)
    requires UserId(e).Some? && UserId(e).value in last0
    requires forall k :: 0 <= k < |reqs| ==> !AcceptedFor(last0, reqs, k, rate, UserId(e).value)
    requires now - last0[UserId(e).value] >= rate
    ensures Step(StateAfter(last0, reqs, |reqs|, rate), e, now, rate).handled
  {
    var u := UserId(e).value;
    assert LastAccepted(last0, reqs, |reqs|, rate, u) == None;
    StampIsLastAccepted(last0, reqs, |reqs|, rate, u);
  }

  // ---------------------------------------------------------------------
  // The middleware object.
  // ---------------------------------------------------------------------

  class ThrottleMiddleware {
    const rate: real
    var last: map<int, real>

    /** `__init__`: the rate, and no user seen yet. */
    constructor (rate: real)
      ensures this.rate == rate && last == map[]
    {
      this.rate := rate;
      last := map[];
    }

    /**
      `__call__`: `handled` says whether the handler is awaited (once) for
      `event`; the map changes only as `Step` says, the user id being
      extracted as the code does it.
    */
    method Call(event: Event, now: real) returns (handled: bool)
      modifies this
      ensures Decision(handled, last) == Step(old(last), event, now, rate)
      ensures UserId(event).None? ==> handled && last == old(last)
      ensures !handled ==> last == old(last)
      ensures handled && UserId(event).Some? ==> last == old(last)[UserId(event).value := now]
    {
      var uid := UserId(event);
      if uid.Some? {
        var id := uid.value;
        if id in last && now - last[id] < rate {
          return false;
        }
        last := last[id := now];
      }
      return true;
    }
  }

  // ---------------------------------------------------------------------
  // The bare callback query, as written and as intended.
  // ---------------------------------------------------------------------

  /**
    As written, a bare callback query is never attributed to its sender,
    so it passes even when that sender was accepted a moment ago, and the
    map is not updated.
  */
  lemma CallbackQueryPassesUnthrottled(last: map<int, real>, u: User, now: real, rate: real)
    requires u.id in last && now - last[u.id] < rate
    ensures var e := CallbackEvent(CallbackQuery(Some(u)));
            UserId(e) == None && Step(last, e, now, rate) == Decision(true, last)
            && !Step(last, MessageEvent(Message(Some(u))), now, rate).handled
  {
  }

  /** With the sender extracted, the same callback query is throttled like a message. */
  lemma IntendedCallbackQueryThrottled(last: map<int, real>, u: User, now: real, rate: real)
    requires u.id in last && now - last[u.id] < rate
    ensures var e := CallbackEvent(CallbackQuery(Some(u)));
            IntendedUserId(e) == Some(u.id) && IntendedStep(last, e, now, rate) == Decision(false, last)
            && IntendedStep(last, MessageEvent(Message(Some(u))), now, rate) == IntendedStep(last, e, now, rate)
  {
  }

  /** The two extractions agree on every event except a bare callback query with a sender. */
  lemma ExtractionsAgreeElsewhere(e: Event)
    requires !(e.CallbackEvent? && e.query.fromUser.Some?)
    ensures IntendedUserId(e) == UserId(e)
  {
  }
}
