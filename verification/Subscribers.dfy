/** `subscriber`: the two subscription maps, what the server has been told about them on the current
    connection, and the routing of pushed replies. */
module Subscribers {
  import opened Wrappers
  import opened Resp
  import opened Commands
  import opened Connections
  import opened Reconnection

  /** The callbacks registered for a key, by identity. */
  datatype Holder = Holder(callback: nat, acknowledgement: Option<nat>)

  /** What can happen to a subscription map. */
  datatype Event = Added(key: string, holder: Holder) | Removed(key: string) | Cleared

  /** The callback of an AUTH: the user's, or the one `re_auth` installs. */
  datatype AuthCallback = Users(id: nat) | ReAuths

  /** Calls that receiving a reply causes. */
  datatype Call =
    | Message(callback: nat, channel: string, message: string)
    | Acknowledgement(callback: nat, count: int)
    | AuthReply(to: AuthCallback, reply: Reply)

  // ----- What the maps and the server hold -------------------------------------------------

  /** A subscription map is the outcome of its history. */
  ghost function Registered(history: seq<Event>): map<string, Holder> {
    if history == [] then map[] else Happened(Registered(history[..|history| - 1]), history[|history| - 1])
  }

  ghost function Happened(before: map<string, Holder>, e: Event): map<string, Holder> {
    match e
    case Added(key, holder) => before[key := holder]
    case Removed(key) => before - {key}
    case Cleared => map[]
  }

  /** The map is what its history made it. */
  ghost predicate Follows(m: map<string, Holder>, history: seq<Event>) {
    m == Registered(history)
  }

  lemma FollowsSnoc(m: map<string, Holder>, history: seq<Event>, e: Event)
    requires Follows(m, history)
    ensures Follows(Happened(m, e), history + [e])
  {
    RegisteredSnoc(history, e);
  }

  lemma RegisteredSnoc(history: seq<Event>, e: Event)
    ensures Registered(history + [e]) == Happened(Registered(history), e)
  {
    assert (history + [e])[..|history|] == history;
  }

  predicate Concerns(e: Event, key: string) {
    e.Cleared? || e.key == key
  }

  /** The last event that concerns `key` is the addition of `holder`. */
  ghost predicate LastAdded(history: seq<Event>, key: string, holder: Holder) {
    exists i | 0 <= i < |history| ::
      history[i] == Added(key, holder) && forall j | i < j < |history| :: !Concerns(history[j], key)
  }

  /** An event that does not concern the key changes nothing for it. */
  lemma LastAddedSnoc(front: seq<Event>, e: Event, key: string, holder: Holder)
    ensures LastAdded(front + [e], key, holder) <==> e == Added(key, holder) || (!Concerns(e, key) && LastAdded(front, key, holder))
  {
    var all := front + [e];
    assert all[|front|] == e && forall j | 0 <= j < |front| :: all[j] == front[j];
    if LastAdded(front, key, holder) && !Concerns(e, key) {
      var i :| 0 <= i < |front| && front[i] == Added(key, holder) && forall j | i < j < |front| :: !Concerns(front[j], key);
      assert all[i] == Added(key, holder);
    }
  }

  /** A key is registered with a holder exactly when its last event is the addition of that holder. */
  lemma {:induction false} RegisteredIsLastAdded(history: seq<Event>, key: string, holder: Holder)
    ensures key in Registered(history) && Registered(history)[key] == holder <==> LastAdded(history, key, holder)
  {
    if history != [] {
      var front, e := history[..|history| - 1], history[|history| - 1];
      assert history == front + [e];
      RegisteredIsLastAdded(front, key, holder);
      LastAddedSnoc(front, e, key, holder);
      RegisteredSnoc(front, e);
    }
  }

  /** The keys a server holds after the commands `cs` on one connection. */
  function Folded(cs: seq<Command>, sub: string, unsub: string): set<string> {
    if cs == [] then {}
    else FoldOne(Folded(cs[..|cs| - 1], sub, unsub), cs[|cs| - 1], sub, unsub)
  }

  function FoldOne(before: set<string>, c: Command, sub: string, unsub: string): set<string> {
    if |c| == 2 && c[0] == sub then before + {c[1]}
    else if |c| == 2 && c[0] == unsub then before - {c[1]}
    else before
  }

  lemma FoldSnoc(cs: seq<Command>, c: Command, sub: string, unsub: string)
    ensures Folded(cs + [c], sub, unsub) == FoldOne(Folded(cs, sub, unsub), c, sub, unsub)
  {
    assert (cs + [c])[..|cs|] == cs;
  }

  /** Forgetting the commands of a lost connection never adds a key. */
  lemma {:induction false} FoldSuffix(a: seq<Command>, b: seq<Command>, sub: string, unsub: string)
    ensures Folded(b, sub, unsub) <= Folded(a + b, sub, unsub)
    decreases |b|
  {
    if b != [] {
      var front, last := b[..|b| - 1], b[|b| - 1];
      FoldSuffix(a, front, sub, unsub);
      assert a + b == (a + front) + [last];
      FoldSnoc(a + front, last, sub, unsub);
    }
  }

  function Channels(cs: seq<Command>): set<string> {
    Folded(cs, "SUBSCRIBE", "UNSUBSCRIBE")
  }

  function Patterns(cs: seq<Command>): set<string> {
    Folded(cs, "PSUBSCRIBE", "PUNSUBSCRIBE")
  }

  lemma Issue(cs: seq<Command>, c: Command)
    ensures Channels(cs + [c]) == FoldOne(Channels(cs), c, "SUBSCRIBE", "UNSUBSCRIBE")
    ensures Patterns(cs + [c]) == FoldOne(Patterns(cs), c, "PSUBSCRIBE", "PUNSUBSCRIBE")
  {
    FoldSnoc(cs, c, "SUBSCRIBE", "UNSUBSCRIBE");
    FoldSnoc(cs, c, "PSUBSCRIBE", "PUNSUBSCRIBE");
  }

  lemma IssueSubscribe(cs: seq<Command>, key: string)
    ensures Channels(cs + [["SUBSCRIBE", key]]) == Channels(cs) + {key}
    ensures Patterns(cs + [["SUBSCRIBE", key]]) == Patterns(cs)
    ensures Channels(cs + [["UNSUBSCRIBE", key]]) == Channels(cs) - {key}
    ensures Patterns(cs + [["UNSUBSCRIBE", key]]) == Patterns(cs)
  {
    Issue(cs, ["SUBSCRIBE", key]);
    Issue(cs, ["UNSUBSCRIBE", key]);
  }

  lemma IssuePsubscribe(cs: seq<Command>, key: string)
    ensures Patterns(cs + [["PSUBSCRIBE", key]]) == Patterns(cs) + {key}
    ensures Channels(cs + [["PSUBSCRIBE", key]]) == Channels(cs)
    ensures Patterns(cs + [["PUNSUBSCRIBE", key]]) == Patterns(cs) - {key}
    ensures Channels(cs + [["PUNSUBSCRIBE", key]]) == Channels(cs)
  {
    Issue(cs, ["PSUBSCRIBE", key]);
    Issue(cs, ["PUNSUBSCRIBE", key]);
  }

  lemma IssueAuth(cs: seq<Command>, password: string)
    ensures Channels(cs + [["AUTH", password]]) == Channels(cs)
    ensures Patterns(cs + [["AUTH", password]]) == Patterns(cs)
  {
    Issue(cs, ["AUTH", password]);
  }

  // ----- Routing ---------------------------------------------------------------------------

  /** `is_string` and `as_string`: simple strings, bulk strings and errors. */
  function Text(r: Reply): Option<string> {
    match r
    case Simple(t) => Some(t)
    case Bulk(t) => Some(t)
    case Error(t) => Some(t)
    case _ => None
  }

  /** A simple string, a bulk string or an error with text `t`; nothing else carries a text. */
  predicate CarriesText(r: Reply, t: string) {
    r == Simple(t) || r == Bulk(t) || r == Error(t)
  }

  lemma TextExactly(r: Reply, t: string)
    ensures Text(r) == Some(t) <==> CarriesText(r, t)
  {
  }

  predicate IsMessage(r: Reply, channel: string, message: string) {
    && r.Array? && |r.rows| == 3
    && CarriesText(r.rows[0], "message") && CarriesText(r.rows[1], channel) && CarriesText(r.rows[2], message)
  }

  predicate IsPatternMessage(r: Reply, pattern: string, channel: string, message: string) {
    && r.Array? && |r.rows| == 4
    && CarriesText(r.rows[0], "pmessage") && CarriesText(r.rows[1], pattern)
    && CarriesText(r.rows[2], channel) && CarriesText(r.rows[3], message)
  }

  /** The message callbacks a reply has to invoke: `handle_subscribe_reply` and
      `handle_psubscribe_reply` behind the dispatch on the array's shape. */
  function MessageCalls(channels: map<string, Holder>, patterns: map<string, Holder>, r: Reply): seq<Call> {
    if !r.Array? then []
    else if |r.rows| == 3 then
      match (Text(r.rows[0]), Text(r.rows[1]), Text(r.rows[2]))
      case (Some(title), Some(channel), Some(message)) =>
        if title == "message" && channel in channels then [Message(channels[channel].callback, channel, message)] else []
      case _ => []
    else if |r.rows| == 4 then
      match (Text(r.rows[0]), Text(r.rows[1]), Text(r.rows[2]), Text(r.rows[3]))
      case (Some(title), Some(pattern), Some(channel), Some(message)) =>
        if title == "pmessage" && pattern in patterns then [Message(patterns[pattern].callback, channel, message)] else []
      case _ => []
    else []
  }

  /** Routing over histories: a reply invokes a message callback exactly when it is a "message" for
      a channel, or a "pmessage" for a pattern, whose last event is the registration of that
      callback; it invokes at most one. */
  lemma RoutingIsExact(channelHistory: seq<Event>, patternHistory: seq<Event>, r: Reply, callback: nat, channel: string, message: string)
    ensures var calls := MessageCalls(Registered(channelHistory), Registered(patternHistory), r);
            && |calls| <= 1
            && (calls == [Message(callback, channel, message)] <==>
                 || (IsMessage(r, channel, message) && exists h: Holder :: h.callback == callback && LastAdded(channelHistory, channel, h))
                 || (exists p: string, h: Holder ::
                       IsPatternMessage(r, p, channel, message) && h.callback == callback && LastAdded(patternHistory, p, h)))
  {
    var cs, ps := Registered(channelHistory), Registered(patternHistory);
    forall k: string, h: Holder ensures LastAdded(channelHistory, k, h) <==> k in cs && cs[k] == h {
      RegisteredIsLastAdded(channelHistory, k, h);
    }
    forall k: string, h: Holder ensures LastAdded(patternHistory, k, h) <==> k in ps && ps[k] == h {
      RegisteredIsLastAdded(patternHistory, k, h);
    }
    if r.Array? && |r.rows| == 3 && Text(r.rows[1]).Some? {
      var k := Text(r.rows[1]).value;
      assert k in cs ==> LastAdded(channelHistory, k, cs[k]);
    }
    if r.Array? && |r.rows| == 4 && Text(r.rows[1]).Some? {
      var k := Text(r.rows[1]).value;
      assert k in ps ==> LastAdded(patternHistory, k, ps[k]);
    }
  }

  /** The replies a Redis server pushes, all in bulk strings: each calls what is registered for its key. */
  lemma ServerMessagesAreRouted(channels: map<string, Holder>, patterns: map<string, Holder>, key: string, channel: string, message: string)
    ensures MessageCalls(channels, patterns, Array([Bulk("message"), Bulk(key), Bulk(message)])) ==
            if key in channels then [Message(channels[key].callback, key, message)] else []
    ensures MessageCalls(channels, patterns, Array([Bulk("pmessage"), Bulk(key), Bulk(channel), Bulk(message)])) ==
            if key in patterns then [Message(patterns[key].callback, channel, message)] else []
  {
  }

  /** The acknowledgement callbacks a reply has to invoke. */
  function AcknowledgementCalls(channels: map<string, Holder>, patterns: map<string, Holder>, r: Reply): seq<Call>
    requires r.Array? && |r.rows| == 3 && r.rows[2].Integer?
  {
    match (Text(r.rows[0]), Text(r.rows[1]))
    case (Some(title), Some(key)) =>
      if title == "subscribe" then AcknowledgedBy(channels, key, r.rows[2].value)
      else if title == "psubscribe" then AcknowledgedBy(patterns, key, r.rows[2].value)
      else []
    case _ => []
  }

  function AcknowledgedBy(m: map<string, Holder>, key: string, count: int): seq<Call> {
    if key in m && m[key].acknowledgement.Some? then [Acknowledgement(m[key].acknowledgement.value, count)] else []
  }

  predicate Acknowledges(r: Reply, title: string, key: string, count: int) {
    && r.Array? && |r.rows| == 3 && CarriesText(r.rows[0], title) && CarriesText(r.rows[1], key)
    && r.rows[2] == Integer(count)
  }

  lemma AcknowledgedByExactly(history: seq<Event>, key: string, count: int, callback: nat)
    ensures AcknowledgedBy(Registered(history), key, count) == [Acknowledgement(callback, count)] <==>
            exists h: Holder :: h.acknowledgement == Some(callback) && LastAdded(history, key, h)
  {
    var m := Registered(history);
    forall h: Holder ensures LastAdded(history, key, h) <==> key in m && m[key] == h {
      RegisteredIsLastAdded(history, key, h);
    }
    assert key in m ==> LastAdded(history, key, m[key]);
  }

  /** `r` acknowledges, under `title`, a key whose last event is a registration with that callback. */
  ghost predicate Concerned(history: seq<Event>, r: Reply, title: string, callback: nat, count: int) {
    exists k: string, h: Holder ::
      Acknowledges(r, title, k, count) && h.acknowledgement == Some(callback) && LastAdded(history, k, h)
  }

  lemma ConcernedIff(history: seq<Event>, r: Reply, title: string, key: string, callback: nat, count: int)
    requires Acknowledges(r, title, key, count)
    ensures Concerned(history, r, title, callback, count) <==>
            AcknowledgedBy(Registered(history), key, count) == [Acknowledgement(callback, count)]
  {
    AcknowledgedByExactly(history, key, count, callback);
    assert forall k: string | Acknowledges(r, title, k, count) :: k == key;
  }

  /** An acknowledgement invokes a callback exactly when it is a "subscribe" for a channel, or a
      "psubscribe" for a pattern, whose last event is the registration of that callback; it invokes
      at most one. */
  lemma AcknowledgingIsExact(channelHistory: seq<Event>, patternHistory: seq<Event>, r: Reply, callback: nat, count: int)
    requires r.Array? && |r.rows| == 3 && r.rows[2] == Integer(count)
    ensures var calls := AcknowledgementCalls(Registered(channelHistory), Registered(patternHistory), r);
            && |calls| <= 1
            && (calls == [Acknowledgement(callback, count)] <==>
                 || Concerned(channelHistory, r, "subscribe", callback, count)
                 || Concerned(patternHistory, r, "psubscribe", callback, count))
            && forall c | c in calls :: c.Acknowledgement? && c.count == count
  {
    if key :| Acknowledges(r, "subscribe", key, count) {
      ConcernedIff(channelHistory, r, "subscribe", key, callback, count);
    } else if key :| Acknowledges(r, "psubscribe", key, count) {
      ConcernedIff(patternHistory, r, "psubscribe", key, callback, count);
    } else {
      NothingAcknowledged(channelHistory, patternHistory, r, count);
    }
  }

  lemma NothingAcknowledged(channelHistory: seq<Event>, patternHistory: seq<Event>, r: Reply, count: int)
    requires r.Array? && |r.rows| == 3 && r.rows[2] == Integer(count)
    requires forall k: string :: !Acknowledges(r, "subscribe", k, count) && !Acknowledges(r, "psubscribe", k, count)
    ensures AcknowledgementCalls(Registered(channelHistory), Registered(patternHistory), r) == []
  {
    if Text(r.rows[1]).Some? {
      assert !Acknowledges(r, "subscribe", Text(r.rows[1]).value, count);
    }
  }

  /** The same for the acknowledgements a Redis server sends. */
  lemma ServerAcknowledgementsAreDelivered(channels: map<string, Holder>, patterns: map<string, Holder>, key: string, n: int)
    ensures AcknowledgementCalls(channels, patterns, Array([Bulk("subscribe"), Bulk(key), Integer(n)])) ==
            if key in channels && channels[key].acknowledgement.Some? then [Acknowledgement(channels[key].acknowledgement.value, n)] else []
    ensures AcknowledgementCalls(channels, patterns, Array([Bulk("psubscribe"), Bulk(key), Integer(n)])) ==
            if key in patterns && patterns[key].acknowledgement.Some? then [Acknowledgement(patterns[key].acknowledgement.value, n)] else []
  {
  }

  // ----- Asking again ----------------------------------------------------------------------

  /** Each of `keys` once, in some order. */
  predicate Lists(order: seq<string>, keys: set<string>) {
    && (forall i | 0 <= i < |order| :: order[i] in keys)
    && (forall k | k in keys :: k in order)
    && (forall i, j | 0 <= i < j < |order| :: order[i] != order[j])
  }

  lemma ListsOneMore(order: seq<string>, keys: set<string>, key: string)
    requires Lists(order, keys) && key !in keys
    ensures Lists(order + [key], keys + {key})
  {
  }

  function Asks(word: string, order: seq<string>): (cs: seq<Command>)
    ensures |cs| == |order| && forall i | 0 <= i < |order| :: cs[i] == [word, order[i]]
  {
    if order == [] then [] else [[word, order[0]]] + Asks(word, order[1..])
  }

  lemma AsksOneMore(before: seq<Command>, word: string, order: seq<string>, key: string)
    ensures (before + Asks(word, order)) + [[word, key]] == before + Asks(word, order + [key])
  {
    var l, r := Asks(word, order) + [[word, key]], Asks(word, order + [key]);
    assert |l| == |r| && forall i | 0 <= i < |l| :: l[i] == r[i];
    Associate(before, Asks(word, order), [[word, key]]);
  }

  lemma {:induction false} AsksFold(w: seq<Command>, order: seq<string>)
    ensures Channels(w + Asks("SUBSCRIBE", order)) == Channels(w) + (set k | k in order)
    ensures Patterns(w + Asks("SUBSCRIBE", order)) == Patterns(w)
    ensures Patterns(w + Asks("PSUBSCRIBE", order)) == Patterns(w) + (set k | k in order)
    ensures Channels(w + Asks("PSUBSCRIBE", order)) == Channels(w)
    decreases |order|
  {
    if order == [] {
      assert w + [] == w;
    } else {
      var front, last := order[..|order| - 1], order[|order| - 1];
      assert order == front + [last];
      AsksFold(w, front);
      AsksOneMore(w, "SUBSCRIBE", front, last);
      AsksOneMore(w, "PSUBSCRIBE", front, last);
      IssueSubscribe(w + Asks("SUBSCRIBE", front), last);
      IssuePsubscribe(w + Asks("PSUBSCRIBE", front), last);
    }
  }

  /** Once every registered key has been asked for, a server that held no other holds exactly those. */
  lemma AskedExactly(w: seq<Command>, cs: seq<string>, ps: seq<string>, channels: map<string, Holder>, patterns: map<string, Holder>)
    requires Lists(cs, channels.Keys) && Lists(ps, patterns.Keys)
    requires Within(Channels(w), channels) && Within(Patterns(w), patterns)
    ensures var all := w + Asks("SUBSCRIBE", cs) + Asks("PSUBSCRIBE", ps);
            Exactly(Channels(all), channels) && Exactly(Patterns(all), patterns)
  {
    AsksFold(w, cs);
    AsksFold(w + Asks("SUBSCRIBE", cs), ps);
  }

  /** `moved` is what is left of `all`, and `done` the rest of it. */
  ghost predicate Divided(all: map<string, Holder>, moved: map<string, Holder>, done: map<string, Holder>) {
    && moved.Keys + done.Keys == all.Keys && moved.Keys !! done.Keys
    && (forall k | k in moved :: moved[k] == all[k])
    && (forall k | k in done :: done[k] == all[k])
  }

  lemma DividedOneMore(all: map<string, Holder>, moved: map<string, Holder>, done: map<string, Holder>, key: string)
    requires Divided(all, moved, done) && key in moved
    ensures Divided(all, moved - {key}, done[key := moved[key]])
    ensures done[key := moved[key]].Keys == done.Keys + {key}
  {
  }

  lemma DividedDone(all: map<string, Holder>, moved: map<string, Holder>, done: map<string, Holder>)
    requires Divided(all, moved, done) && moved.Keys == {}
    ensures done == all
  {
  }

  predicate Within(asked: set<string>, m: map<string, Holder>) {
    asked <= m.Keys
  }

  predicate Exactly(asked: set<string>, m: map<string, Holder>) {
    asked == m.Keys
  }

  lemma KeysShrink(asked: set<string>, m: map<string, Holder>, key: string)
    ensures Within(asked, m) ==> Within(asked - {key}, m - {key})
    ensures Exactly(asked, m) ==> Exactly(asked - {key}, m - {key})
  {
  }

  lemma KeysGrow(asked: set<string>, m: map<string, Holder>, key: string, holder: Holder)
    ensures Within(asked, m) ==> Within(asked + {key}, m[key := holder])
    ensures Exactly(asked, m) ==> Exactly(asked + {key}, m[key := holder])
  {
  }

  /** What a reconnection can change: the connection, the commands sent or buffered on it, the AUTH
      callback, and the two maps with their histories. */
  datatype Snapshot = Snapshot(
    up: bool, issued: seq<Command>, buffer: string, callback: Option<AuthCallback>, password: string,
    channels: map<string, Holder>, patterns: map<string, Holder>,
    channelHistory: seq<Event>, patternHistory: seq<Event>)
  {
    /** Nothing has been asked of the server on this connection that is not in the maps. */
    predicate Safe() {
      Within(Channels(issued), channels) && Within(Patterns(issued), patterns)
    }

    /** The server will hold exactly the registered keys once it has read what was issued. */
    predicate InSync() {
      Exactly(Channels(issued), channels) && Exactly(Patterns(issued), patterns)
    }
  }

  /** A successful reconnection: after the commands that were already buffered, exactly the AUTH of a saved
      password, then one SUBSCRIBE for each registered channel and one PSUBSCRIBE for each registered
      pattern were written; the AUTH has its own callback; the maps and the password are kept. */
  ghost predicate Reasked(at: Snapshot, now: Snapshot) {
    && now.up && now.buffer == "" && now.password == at.password && SameMaps(at, now)
    && now.callback == (if at.password == "" then at.callback else Some(ReAuths))
    && (exists cs: seq<string>, ps: seq<string> ::
          Lists(cs, at.channels.Keys) && Lists(ps, at.patterns.Keys)
          && now.issued == (at.issued + if at.password == "" then [] else [["AUTH", at.password]])
                           + Asks("SUBSCRIBE", cs) + Asks("PSUBSCRIBE", ps))
    && (at.Safe() ==> now.InSync())
  }

  predicate SameMaps(at: Snapshot, now: Snapshot) {
    && now.channels == at.channels && now.patterns == at.patterns
    && now.channelHistory == at.channelHistory && now.patternHistory == at.patternHistory
  }

  /** Attempts that began without a connection: nothing has changed until one connects. */
  ghost predicate Kept(at: Snapshot, now: Snapshot) {
    if now.up && !at.up then Reasked(at, now) else now == at
  }

  /** Both maps were emptied, and nothing else changed. */
  predicate GaveUp(at: Snapshot, now: Snapshot) {
    now == at.(channels := map[], patterns := map[],
               channelHistory := at.channelHistory + [Cleared], patternHistory := at.patternHistory + [Cleared])
  }

  /** Giving up is safe exactly when no subscription was issued. */
  lemma GivingUpIsSafeIff(at: Snapshot, now: Snapshot)
    requires GaveUp(at, now)
    ensures now.Safe() <==> Channels(at.issued) == {} && Patterns(at.issued) == {}
  {
  }

  /** How a handler run ends: connected or still trying, with everything kept, or given up with empty
      maps. */
  ghost predicate Ended(finished: bool, at: Snapshot, now: Snapshot) {
    if finished && !now.up then GaveUp(at, now) else Kept(at, now)
  }

  /** With the buffers cleared first, every end is safe, and in sync if connected. */
  lemma EndedAfterClearing(finished: bool, at: Snapshot, now: Snapshot)
    requires Ended(finished, at, now) && !at.up && at.issued == []
    ensures now.Safe() && now.password == at.password
    ensures if now.up then now.InSync() && Reasked(at, now) else now.issued == []
  {
  }

  /** A handler run goes on until connected, cancelled or at its bound, or until `env` ends; each attempt
      before the last neither connected nor was followed by a cancellation. */
  predicate Ran(hasMaster: bool, bound: int, env: seq<Attempt>, used: nat, finished: bool,
                wasUp: bool, wasCancelled: bool, up: bool, cancelled: bool)
  {
    && used <= |env| && Attempted(hasMaster, bound, env, used, wasUp, wasCancelled, up, cancelled)
    && (!finished ==> used == |env|)
    && finished == (up || cancelled || (bound != -1 && used >= bound))
  }

  class Subscriber {
    const connection: RedisConnection
    var channels: map<string, Holder>
    var patterns: map<string, Holder>
    var password: string
    var authCallback: Option<AuthCallback>
    var reconnecting: bool
    var cancel: bool
    var maxReconnects: int
    var currentReconnectAttempts: int
    var hasMasterName: bool
    var calls: seq<Call>
    ghost var channelHistory: seq<Event>
    ghost var patternHistory: seq<Event>

    /** The maps are those of their histories, and the connection carries whole commands. */
    ghost predicate Valid()
      reads this`channels, this`patterns, this`channelHistory, this`patternHistory, connection
    {
      && connection.Framed()
      && Follows(channels, channelHistory) && Follows(patterns, patternHistory)
    }

    /** Nothing has been asked of the server on this connection that is not in the maps. */
    ghost predicate Safe()
      reads this`channels, this`patterns, connection
    {
      Within(Channels(connection.Issued()), channels) && Within(Patterns(connection.Issued()), patterns)
    }

    /** The server will hold exactly the registered keys once it has read what was issued. */
    ghost predicate InSync()
      reads this`channels, this`patterns, connection
    {
      Exactly(Channels(connection.Issued()), channels) && Exactly(Patterns(connection.Issued()), patterns)
    }

    constructor ()
      ensures Valid() && Safe() && channels == map[] && patterns == map[] && fresh(connection) && connection.Valid()
      ensures !connection.connected && authCallback == None && calls == [] && !reconnecting && !cancel
    {
      connection := new RedisConnection();
      channels, patterns, password, authCallback := map[], map[], "", None;
      reconnecting, cancel, hasMasterName := false, false, false;
      maxReconnects, currentReconnectAttempts := 0, 0;
      calls, channelHistory, patternHistory := [], [], [];
    }

    method UnprotectedSubscribe(channel: string, holder: Holder)
      modifies this`channels, connection
      ensures channels == old(channels)[channel := holder]
      ensures connection.Issued() == old(connection.Issued()) + [["SUBSCRIBE", channel]]
      ensures Channels(connection.Issued()) == old(Channels(connection.Issued())) + {channel}
      ensures Patterns(connection.Issued()) == old(Patterns(connection.Issued()))
      ensures connection.connected == old(connection.connected) && (old(connection.Framed()) ==> connection.Framed())
    {
      IssueSubscribe(connection.Issued(), channel);
      channels := channels[channel := holder];
      connection.Send(["SUBSCRIBE", channel]);
    }

    method UnprotectedPsubscribe(pattern: string, holder: Holder)
      modifies this`patterns, connection
      ensures patterns == old(patterns)[pattern := holder]
      ensures connection.Issued() == old(connection.Issued()) + [["PSUBSCRIBE", pattern]]
      ensures Patterns(connection.Issued()) == old(Patterns(connection.Issued())) + {pattern}
      ensures Channels(connection.Issued()) == old(Channels(connection.Issued()))
      ensures connection.connected == old(connection.connected) && (old(connection.Framed()) ==> connection.Framed())
    {
      IssuePsubscribe(connection.Issued(), pattern);
      patterns := patterns[pattern := holder];
      connection.Send(["PSUBSCRIBE", pattern]);
    }

    method Subscribe(channel: string, holder: Holder)
      requires Valid()
      modifies this`channels, this`channelHistory, connection
      ensures Valid() && channels == old(channels)[channel := holder]
      ensures channelHistory == old(channelHistory) + [Added(channel, holder)]
      ensures connection.Issued() == old(connection.Issued()) + [["SUBSCRIBE", channel]]
      ensures (old(Safe()) ==> Safe()) && (old(InSync()) ==> InSync())
      ensures connection.connected == old(connection.connected)
    {
      KeysGrow(Channels(connection.Issued()), channels, channel, holder);
      FollowsSnoc(channels, channelHistory, Added(channel, holder));
      UnprotectedSubscribe(channel, holder);
      channelHistory := channelHistory + [Added(channel, holder)];
    }

    method Psubscribe(pattern: string, holder: Holder)
      requires Valid()
      modifies this`patterns, this`patternHistory, connection
      ensures Valid() && patterns == old(patterns)[pattern := holder]
      ensures patternHistory == old(patternHistory) + [Added(pattern, holder)]
      ensures connection.Issued() == old(connection.Issued()) + [["PSUBSCRIBE", pattern]]
      ensures (old(Safe()) ==> Safe()) && (old(InSync()) ==> InSync())
      ensures connection.connected == old(connection.connected)
    {
      KeysGrow(Patterns(connection.Issued()), patterns, pattern, holder);
      FollowsSnoc(patterns, patternHistory, Added(pattern, holder));
      UnprotectedPsubscribe(pattern, holder);
      patternHistory := patternHistory + [Added(pattern, holder)];
    }

    method SendUnsubscribe(channel: string)
      modifies connection
      ensures connection.connected == old(connection.connected)
      ensures connection.Issued() == old(connection.Issued()) + [["UNSUBSCRIBE", channel]]
      ensures Channels(connection.Issued()) == old(Channels(connection.Issued())) - {channel}
      ensures Patterns(connection.Issued()) == old(Patterns(connection.Issued()))
      ensures old(connection.Framed()) ==> connection.Framed()
    {
      IssueSubscribe(connection.Issued(), channel);
      connection.Send(["UNSUBSCRIBE", channel]);
    }

    method SendPunsubscribe(pattern: string)
      modifies connection
      ensures connection.connected == old(connection.connected)
      ensures connection.Issued() == old(connection.Issued()) + [["PUNSUBSCRIBE", pattern]]
      ensures Patterns(connection.Issued()) == old(Patterns(connection.Issued())) - {pattern}
      ensures Channels(connection.Issued()) == old(Channels(connection.Issued()))
      ensures old(connection.Framed()) ==> connection.Framed()
    {
      IssuePsubscribe(connection.Issued(), pattern);
      connection.Send(["PUNSUBSCRIBE", pattern]);
    }

    /** Without a registration nothing is sent. */
    method Unsubscribe(channel: string)
      requires Valid()
      modifies this`channels, this`channelHistory, connection
      ensures Valid() && (old(Safe()) ==> Safe()) && (old(InSync()) ==> InSync())
      ensures connection.connected == old(connection.connected)
      ensures if channel in old(channels) then
                && channels == old(channels) - {channel} && channelHistory == old(channelHistory) + [Removed(channel)]
                && connection.Issued() == old(connection.Issued()) + [["UNSUBSCRIBE", channel]]
              else
                channels == old(channels) && channelHistory == old(channelHistory) && connection.Issued() == old(connection.Issued())
    {
      if channel in channels {
        RemoveChannel(channel);
      }
    }

    method RemoveChannel(channel: string)
      requires Valid() && channel in channels
      modifies this`channels, this`channelHistory, connection
      ensures Valid() && (old(Safe()) ==> Safe()) && (old(InSync()) ==> InSync())
      ensures connection.connected == old(connection.connected)
      ensures channels == old(channels) - {channel} && channelHistory == old(channelHistory) + [Removed(channel)]
      ensures connection.Issued() == old(connection.Issued()) + [["UNSUBSCRIBE", channel]]
    {
      KeysShrink(Channels(connection.Issued()), channels, channel);
      SendUnsubscribe(channel);
      EraseChannel(channel);
    }

    method EraseChannel(channel: string)
      requires Follows(channels, channelHistory)
      modifies this`channels, this`channelHistory
      ensures channels == old(channels) - {channel} && channelHistory == old(channelHistory) + [Removed(channel)]
      ensures Follows(channels, channelHistory)
    {
      FollowsSnoc(channels, channelHistory, Removed(channel));
      channels := channels - {channel};
      channelHistory := channelHistory + [Removed(channel)];
    }

    method Punsubscribe(pattern: string)
      requires Valid()
      modifies this`patterns, this`patternHistory, connection
      ensures Valid() && (old(Safe()) ==> Safe()) && (old(InSync()) ==> InSync())
      ensures connection.connected == old(connection.connected)
      ensures if pattern in old(patterns) then
                && patterns == old(patterns) - {pattern} && patternHistory == old(patternHistory) + [Removed(pattern)]
                && connection.Issued() == old(connection.Issued()) + [["PUNSUBSCRIBE", pattern]]
              else
                patterns == old(patterns) && patternHistory == old(patternHistory) && connection.Issued() == old(connection.Issued())
    {
      if pattern in patterns {
        RemovePattern(pattern);
      }
    }

    method RemovePattern(pattern: string)
      requires Valid() && pattern in patterns
      modifies this`patterns, this`patternHistory, connection
      ensures Valid() && (old(Safe()) ==> Safe()) && (old(InSync()) ==> InSync())
      ensures connection.connected == old(connection.connected)
      ensures patterns == old(patterns) - {pattern} && patternHistory == old(patternHistory) + [Removed(pattern)]
      ensures connection.Issued() == old(connection.Issued()) + [["PUNSUBSCRIBE", pattern]]
    {
      KeysShrink(Patterns(connection.Issued()), patterns, pattern);
      SendPunsubscribe(pattern);
      ErasePattern(pattern);
    }

    method ErasePattern(pattern: string)
      requires Follows(patterns, patternHistory)
      modifies this`patterns, this`patternHistory
      ensures patterns == old(patterns) - {pattern} && patternHistory == old(patternHistory) + [Removed(pattern)]
      ensures Follows(patterns, patternHistory)
    {
      FollowsSnoc(patterns, patternHistory, Removed(pattern));
      patterns := patterns - {pattern};
      patternHistory := patternHistory + [Removed(pattern)];
    }

    method Auth(newPassword: string, callback: Option<AuthCallback>)
      requires Valid()
      modifies this`password, this`authCallback, connection
      ensures Valid() && password == newPassword && authCallback == callback
      ensures connection.Issued() == old(connection.Issued()) + [["AUTH", newPassword]]
      ensures Channels(connection.Issued()) == old(Channels(connection.Issued()))
      ensures Patterns(connection.Issued()) == old(Patterns(connection.Issued()))
      ensures connection.connected == old(connection.connected)
    {
      password := newPassword;
      authCallback := callback;
      SendAuth(newPassword);
    }

    method SendAuth(newPassword: string)
      modifies connection
      ensures connection.Issued() == old(connection.Issued()) + [["AUTH", newPassword]]
      ensures Channels(connection.Issued()) == old(Channels(connection.Issued()))
      ensures Patterns(connection.Issued()) == old(Patterns(connection.Issued()))
      ensures connection.connected == old(connection.connected) && (old(connection.Framed()) ==> connection.Framed())
    {
      IssueAuth(connection.Issued(), newPassword);
      connection.Send(["AUTH", newPassword]);
    }

    /** A write throws exactly when there is no connection; the buffered commands are then lost. */
    method Commit() returns (thrown: bool)
      requires Valid()
      modifies connection
      ensures Valid() && thrown == !connection.connected && connection.connected == old(connection.connected)
      ensures connection.buffer == "" && (old(Safe()) ==> Safe())
      ensures connection.Issued() == if connection.connected then old(connection.Issued()) else []
    {
      thrown := connection.Commit(connection.connected);
      assert thrown ==> connection.Issued() == [];
    }

    /** The socket is gone; what was only buffered is still there until the handler runs. */
    method LoseConnection()
      requires Valid()
      modifies connection
      ensures Valid() && !connection.connected && (old(Safe()) ==> Safe())
    {
      FoldSuffix(connection.carried, connection.pending, "SUBSCRIBE", "UNSUBSCRIBE");
      FoldSuffix(connection.carried, connection.pending, "PSUBSCRIBE", "PUNSUBSCRIBE");
      connection.Socket(false);
    }

    /** `disconnect`: unlike the client's, it forgets no registration. */
    method Disconnect()
      requires Valid() && connection.Valid()
      modifies connection, connection.builder, connection.builder.buffer
      ensures Valid() && Safe() && connection.Valid() && !connection.connected && connection.Issued() == []
    {
      connection.Disconnect();
    }

    // ----- Reconnection ----------------------------------------------------------------------

    method ReAuth()
      requires Valid()
      modifies this`password, this`authCallback, connection
      ensures Valid() && password == old(password)
      ensures authCallback == if password == "" then old(authCallback) else Some(ReAuths)
      ensures connection.Issued() == old(connection.Issued()) + if password == "" then [] else [["AUTH", password]]
      ensures Channels(connection.Issued()) == old(Channels(connection.Issued()))
      ensures Patterns(connection.Issued()) == old(Patterns(connection.Issued()))
      ensures connection.connected == old(connection.connected)
    {
      if password == "" {
        return;
      }
      Auth(password, Some(ReAuths));
    }

    /** The loop of `re_subscribe` over the channels, in whatever order the map is iterated. */
    method ReSubscribeChannels() returns (ghost order: seq<string>)
      requires connection.Framed()
      modifies this`channels, connection
      ensures channels == old(channels) && connection.Framed() && connection.connected == old(connection.connected)
      ensures Lists(order, channels.Keys) && connection.Issued() == old(connection.Issued()) + Asks("SUBSCRIBE", order)
    {
      var moved := channels;
      ghost var all := channels;
      channels, order := map[], [];
      while moved.Keys != {}
        invariant Divided(all, moved, channels)
        invariant connection.Framed() && connection.connected == old(connection.connected)
        invariant Lists(order, channels.Keys) && connection.Issued() == old(connection.Issued()) + Asks("SUBSCRIBE", order)
        decreases moved.Keys
      {
        var channel :| channel in moved.Keys;
        DividedOneMore(all, moved, channels, channel);
        ListsOneMore(order, channels.Keys, channel);
        AsksOneMore(old(connection.Issued()), "SUBSCRIBE", order, channel);
        UnprotectedSubscribe(channel, moved[channel]);
        moved, order := moved - {channel}, order + [channel];
      }
      DividedDone(all, moved, channels);
    }

    method ReSubscribePatterns() returns (ghost order: seq<string>)
      requires connection.Framed()
      modifies this`patterns, connection
      ensures patterns == old(patterns) && connection.Framed() && connection.connected == old(connection.connected)
      ensures Lists(order, patterns.Keys) && connection.Issued() == old(connection.Issued()) + Asks("PSUBSCRIBE", order)
    {
      var moved := patterns;
      ghost var all := patterns;
      patterns, order := map[], [];
      while moved.Keys != {}
        invariant Divided(all, moved, patterns)
        invariant connection.Framed() && connection.connected == old(connection.connected)
        invariant Lists(order, patterns.Keys) && connection.Issued() == old(connection.Issued()) + Asks("PSUBSCRIBE", order)
        decreases moved.Keys
      {
        var pattern :| pattern in moved.Keys;
        DividedOneMore(all, moved, patterns, pattern);
        ListsOneMore(order, patterns.Keys, pattern);
        AsksOneMore(old(connection.Issued()), "PSUBSCRIBE", order, pattern);
        UnprotectedPsubscribe(pattern, moved[pattern]);
        moved, order := moved - {pattern}, order + [pattern];
      }
      DividedDone(all, moved, patterns);
    }

    ghost function Now(): Snapshot
      reads this`channels, this`patterns, this`password, this`authCallback, this`channelHistory, this`patternHistory, connection
    {
      Snapshot(connection.connected, connection.Issued(), connection.buffer, authCallback, password,
               channels, patterns, channelHistory, patternHistory)
    }

    /** One attempt. When it connects, the server is asked again for exactly the registered keys, behind the
        AUTH of a saved password and whatever was buffered since the drop, and the maps are what they
        were. */
    method Reconnect(a: Attempt)
      requires Valid() && !connection.connected
      modifies this`channels, this`patterns, this`password, this`authCallback, this`currentReconnectAttempts, connection
      ensures Valid() && Kept(old(Now()), Now()) && connection.connected == Connects(hasMasterName, a)
      ensures currentReconnectAttempts == old(currentReconnectAttempts) + 1
    {
      currentReconnectAttempts := currentReconnectAttempts + 1;
      if hasMasterName && !a.found {
        return;
      }
      TryConnection(a.up);
    }

    /** The attempt proper: `connect`, and on success everything is asked for again. */
    method TryConnection(up: bool)
      requires Valid() && !connection.connected
      modifies this`channels, this`patterns, this`password, this`authCallback, connection
      ensures Valid() && Kept(old(Now()), Now()) && connection.connected == up
    {
      NewSocket(up);
      if connection.connected {
        ReissueAll(old(Now()));
      }
    }

    method NewSocket(up: bool)
      requires connection.Framed() && !connection.connected
      modifies connection
      ensures connection.Framed() && connection.connected == up && connection.Issued() == old(connection.Issued())
      ensures connection.buffer == old(connection.buffer)
    {
      assert connection.Issued() == connection.pending;
      connection.Socket(up);
    }

    /** The end of a successful attempt: `re_auth`, `re_subscribe`, `commit`. */
    method ReissueAll(ghost at: Snapshot)
      requires Valid() && connection.connected && Now() == at.(up := true)
      modifies this`channels, this`patterns, this`password, this`authCallback, connection
      ensures Valid() && Reasked(at, Now())
    {
      ghost var cs, ps := AskAgain();
      var thrown := Commit();
    }

    method AskAgain() returns (ghost cs: seq<string>, ghost ps: seq<string>)
      requires Valid()
      modifies this`channels, this`patterns, this`password, this`authCallback, connection
      ensures Valid() && channels == old(channels) && patterns == old(patterns) && password == old(password)
      ensures connection.connected == old(connection.connected)
      ensures authCallback == if password == "" then old(authCallback) else Some(ReAuths)
      ensures Lists(cs, channels.Keys) && Lists(ps, patterns.Keys)
      ensures connection.Issued() ==
              (old(connection.Issued()) + if password == "" then [] else [["AUTH", password]])
              + Asks("SUBSCRIBE", cs) + Asks("PSUBSCRIBE", ps)
      ensures old(Safe()) ==> InSync()
    {
      ReAuth();
      cs, ps := ReSubscribe();
    }

    method ReSubscribe() returns (ghost cs: seq<string>, ghost ps: seq<string>)
      requires connection.Framed()
      modifies this`channels, this`patterns, connection
      ensures channels == old(channels) && patterns == old(patterns)
      ensures connection.Framed() && connection.connected == old(connection.connected)
      ensures Lists(cs, channels.Keys) && Lists(ps, patterns.Keys)
      ensures connection.Issued() == old(connection.Issued()) + Asks("SUBSCRIBE", cs) + Asks("PSUBSCRIBE", ps)
      ensures old(Safe()) ==> InSync()
    {
      cs := ReSubscribeChannels();
      ps := ReSubscribePatterns();
      if old(Safe()) {
        AskedExactly(old(connection.Issued()), cs, ps, channels, patterns);
      }
    }

    predicate ShouldReconnect()
      reads this, connection
    {
      !connection.connected && !cancel && (maxReconnects == -1 || currentReconnectAttempts < maxReconnects)
    }

    /** Both maps are emptied; the send buffer is not. */
    method ClearSubscriptions()
      requires Valid()
      modifies this`channels, this`patterns, this`channelHistory, this`patternHistory
      ensures Valid() && GaveUp(old(Now()), Now())
    {
      FollowsSnoc(channels, channelHistory, Cleared);
      FollowsSnoc(patterns, patternHistory, Cleared);
      channels, patterns := map[], map[];
      channelHistory, patternHistory := channelHistory + [Cleared], patternHistory + [Cleared];
    }

    /** The disconnection handler against the attempts of `env`. It leaves at once if it is already
        running. */
    method ConnectionDisconnectionHandler(env: seq<Attempt>) returns (used: nat, finished: bool)
      requires Valid()
      modifies this, connection
      ensures Valid() && maxReconnects == old(maxReconnects) && hasMasterName == old(hasMasterName)
      ensures old(reconnecting) ==> used == 0 && finished && reconnecting && Now() == old(Now())
      ensures !old(reconnecting) ==> Ended(finished, old(Now()), Now())
      ensures !old(reconnecting) ==>
                && reconnecting == !finished
                && Ran(hasMasterName, maxReconnects, env, used, finished, old(connection.connected), old(cancel),
                       connection.connected, cancel)
    {
      if reconnecting {
        return 0, true;
      }
      reconnecting := true;
      used, finished := RunHandler(env, Now());
    }

    /** A handler run that was not already in progress. */
    method RunHandler(env: seq<Attempt>, ghost at: Snapshot) returns (used: nat, finished: bool)
      requires Valid() && Now() == at && reconnecting
      modifies this`channels, this`patterns, this`password, this`authCallback, this`currentReconnectAttempts, this`cancel,
               this`reconnecting, this`channelHistory, this`patternHistory, connection
      ensures Valid() && Ended(finished, at, Now()) && reconnecting == !finished
      ensures Ran(hasMasterName, maxReconnects, env, used, finished, at.up, old(cancel), connection.connected, cancel)
    {
      used, finished := ReconnectLoop(env, at);
      EndHandler(finished, at);
    }

    /** The number and the outcomes of the attempts so far. */
    ghost predicate Counted(env: seq<Attempt>, used: nat, wasUp: bool, wasCancelled: bool)
      reads this`cancel, this`currentReconnectAttempts, this`maxReconnects, this`hasMasterName, connection`connected
    {
      && used <= |env| && used == currentReconnectAttempts
      && Attempted(hasMasterName, maxReconnects, env, used, wasUp, wasCancelled, connection.connected, cancel)
    }

    /** The loop `while (should_reconnect()) { sleep; reconnect(); }`. */
    method ReconnectLoop(env: seq<Attempt>, ghost at: Snapshot) returns (used: nat, finished: bool)
      requires Valid() && Now() == at
      modifies this`channels, this`patterns, this`password, this`authCallback, this`currentReconnectAttempts, this`cancel, connection
      ensures Valid() && Kept(at, Now())
      ensures Ran(hasMasterName, maxReconnects, env, used, finished, at.up, old(cancel), connection.connected, cancel)
    {
      used, currentReconnectAttempts := 0, 0;
      while ShouldReconnect() && used < |env|
        invariant Valid() && Kept(at, Now()) && Counted(env, used, at.up, old(cancel))
        decreases |env| - used
      {
        AttemptedOneMore(hasMasterName, maxReconnects, env, used, at.up, old(cancel));
        Once(env[used], at);
        used := used + 1;
      }
      finished := !ShouldReconnect();
    }

    /** One turn of the loop; the user may cancel before the next check. */
    method Once(a: Attempt, ghost at: Snapshot)
      requires Valid() && !connection.connected && Now() == at
      modifies this`channels, this`patterns, this`password, this`authCallback, this`currentReconnectAttempts, this`cancel, connection
      ensures Valid() && Kept(at, Now()) && connection.connected == Connects(hasMasterName, a)
      ensures currentReconnectAttempts == old(currentReconnectAttempts) + 1 && cancel == a.cancelled
    {
      cancel := a.cancelled;
      Reconnect(a);
    }

    /** The end of the handler: give up without a connection. */
    method EndHandler(finished: bool, ghost at: Snapshot)
      requires Valid() && Kept(at, Now()) && reconnecting
      modifies this`channels, this`patterns, this`channelHistory, this`patternHistory, this`reconnecting
      ensures Valid() && reconnecting == !finished && Ended(finished, at, Now())
    {
      reconnecting := !finished;
      if finished && !connection.connected {
        ClearSubscriptions();
      }
    }

    /** `tcp_client_disconnection_handler`: the buffers are cleared, then the handler runs. */
    method TcpClientDisconnectionHandler(env: seq<Attempt>) returns (used: nat, finished: bool)
      requires Valid() && connection.Valid()
      modifies this, connection, connection.builder, connection.builder.buffer
      ensures Valid() && Safe() && password == old(password)
      ensures old(reconnecting) ==> Now() == old(Dropped())
      ensures !old(reconnecting) ==> Ended(finished, old(Dropped()), Now())
      ensures !old(reconnecting) ==>
                && reconnecting == !finished
                && Ran(hasMasterName, maxReconnects, env, used, finished, false, old(cancel), connection.connected, cancel)
    {
      connection.Disconnect();
      used, finished := ConnectionDisconnectionHandler(env);
      if !old(reconnecting) {
        EndedAfterClearing(finished, old(Dropped()), Now());
      }
    }

    /** What is left once the buffers are cleared. */
    ghost function Dropped(): Snapshot
      reads this`channels, this`patterns, this`password, this`authCallback, this`channelHistory, this`patternHistory
    {
      Snapshot(false, [], "", authCallback, password, channels, patterns, channelHistory, patternHistory)
    }

    // ----- Replies ---------------------------------------------------------------------------

    method CallAcknowledgementCallback(key: string, m: map<string, Holder>, count: int)
      modifies this`calls
      ensures calls == old(calls) + AcknowledgedBy(m, key, count)
    {
      if key in m && m[key].acknowledgement.Some? {
        calls := calls + [Acknowledgement(m[key].acknowledgement.value, count)];
      }
    }

    method HandleAcknowledgementReply(rows: seq<Reply>)
      requires |rows| == 3 && rows[2].Integer?
      modifies this`calls
      ensures calls == old(calls) + AcknowledgementCalls(channels, patterns, Array(rows))
    {
      var title, key := Text(rows[0]), Text(rows[1]);
      if title == None || key == None {
        return;
      }
      if title.value == "subscribe" {
        CallAcknowledgementCallback(key.value, channels, rows[2].value);
      } else if title.value == "psubscribe" {
        CallAcknowledgementCallback(key.value, patterns, rows[2].value);
      }
    }

    method HandleSubscribeReply(rows: seq<Reply>)
      requires |rows| == 3
      modifies this`calls
      ensures calls == old(calls) + MessageCalls(channels, patterns, Array(rows))
    {
      var title, channel, message := Text(rows[0]), Text(rows[1]), Text(rows[2]);
      if title == None || channel == None || message == None || title.value != "message" {
        return;
      }
      if channel.value !in channels {
        return;
      }
      calls := calls + [Message(channels[channel.value].callback, channel.value, message.value)];
    }

    method HandlePsubscribeReply(rows: seq<Reply>)
      requires |rows| == 4
      modifies this`calls
      ensures calls == old(calls) + MessageCalls(channels, patterns, Array(rows))
    {
      var title, pattern, channel, message := Text(rows[0]), Text(rows[1]), Text(rows[2]), Text(rows[3]);
      if title == None || pattern == None || channel == None || message == None || title.value != "pmessage" {
        return;
      }
      if pattern.value !in patterns {
        return;
      }
      calls := calls + [Message(patterns[pattern.value].callback, channel.value, message.value)];
    }

    /** `connection_receive_handler`: a reply that is no array answers the last AUTH, once; an array
        is dispatched on its shape; anything else calls nothing. */
    method ConnectionReceiveHandler(reply: Reply)
      requires Valid()
      modifies this`calls, this`authCallback
      ensures Valid()
      ensures !reply.Array? ==>
                && authCallback == None
                && calls == old(calls) + if old(authCallback).Some? then [AuthReply(old(authCallback).value, reply)] else []
      ensures reply.Array? ==> authCallback == old(authCallback)
      ensures reply.Array? && |reply.rows| == 3 && reply.rows[2].Integer? ==>
                calls == old(calls) + AcknowledgementCalls(Registered(channelHistory), Registered(patternHistory), reply)
      ensures reply.Array? && !(|reply.rows| == 3 && reply.rows[2].Integer?) ==>
                calls == old(calls) + MessageCalls(Registered(channelHistory), Registered(patternHistory), reply)
    {
      if !reply.Array? {
        if authCallback.Some? {
          calls := calls + [AuthReply(authCallback.value, reply)];
          authCallback := None;
        }
        return;
      }
      var rows := reply.rows;
      if |rows| == 3 && rows[2].Integer? {
        HandleAcknowledgementReply(rows);
      } else if |rows| == 3 && Text(rows[2]).Some? {
        HandleSubscribeReply(rows);
      } else if |rows| == 4 {
        HandlePsubscribeReply(rows);
      }
    }
  }

  /** Where giving up is not safe: a channel subscribed after the drop is still in the send buffer, to be
      asked for on the next connection, when its registration is gone. */
  method GiveUpAfterSubscribe(s: Subscriber, channel: string, holder: Holder)
    requires s.Valid() && !s.connection.connected && !s.reconnecting && s.maxReconnects == 0
    modifies s, s.connection
    ensures s.Valid() && s.channels == map[] && channel in Channels(s.connection.Issued()) && !s.Safe()
  {
    IssueSubscribe(s.connection.Issued(), channel);
    s.Subscribe(channel, holder);
    ghost var at := s.Now();
    var used, finished := s.ConnectionDisconnectionHandler([]);
    GivingUpIsSafeIff(at, s.Now());
  }
}
