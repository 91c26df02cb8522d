/** The logger: bounded rings of messages and peers with running ids, read incrementally by id. */
module Logger {

  const MAX_LOG_MESSAGES: nat := 20000

  datatype Numbered<T> = Numbered(id: nat, body: T)

  datatype Message = Message(text: string, kind: int, timestamp: int)

  datatype Peer = Peer(ip: string, blocked: bool, reason: string, timestamp: int)

  /** circular_buffer::push_back: the oldest element makes room in a full ring. */
  function PushBack<T>(ring: seq<T>, x: T): seq<T> {
    if |ring| == MAX_LOG_MESSAGES then ring[1..] + [x] else ring + [x]
  }

  /** The ring holds the last of `all` with their positions as ids, as many as there is room for. */
  ghost predicate IsWindow<T>(ring: seq<Numbered<T>>, all: seq<T>, counter: nat) {
    && counter == |all|
    && |ring| == (if |all| <= MAX_LOG_MESSAGES then |all| else MAX_LOG_MESSAGES)
    && forall i | 0 <= i < |ring| :: ring[i] == Numbered(|all| - |ring| + i, all[|all| - |ring| + i])
  }

  lemma PushKeepsWindow<T>(ring: seq<Numbered<T>>, all: seq<T>, counter: nat, x: T)
    requires IsWindow(ring, all, counter)
    ensures IsWindow(PushBack(ring, Numbered(counter, x)), all + [x], counter + 1)
  {
  }

  /** `r` is what the ring holds with an id above `lastKnownId`, in order. */
  ghost predicate IsNewer<T>(r: seq<Numbered<T>>, ring: seq<Numbered<T>>, lastKnownId: int) {
    && |r| <= |ring| && r == ring[|ring| - |r|..]
    && (forall i | 0 <= i < |r| :: r[i].id > lastKnownId)
    && (forall i | 0 <= i < |ring| - |r| :: ring[i].id <= lastKnownId)
  }

  /** `getMessages` and `getPeers`, which differ only in the ring. */
  method LoadNewer<T>(ring: seq<Numbered<T>>, counter: nat, lastKnownId: int, ghost all: seq<T>) returns (r: seq<Numbered<T>>)
    requires IsWindow(ring, all, counter)
    ensures IsNewer(r, ring, lastKnownId)
  {
    var diff := counter - lastKnownId - 1;
    var size := |ring|;
    if lastKnownId == -1 || diff >= size {
      return LoadFromBuffer(ring, 0);
    }
    if diff <= 0 {
      return [];
    }
    return LoadFromBuffer(ring, size - diff);
  }

  function LoadFromBuffer<T>(src: seq<T>, offset: nat): seq<T>
    requires offset <= |src|
  {
    src[offset..]
  }

  class Logger {
    var messages: seq<Numbered<Message>>
    var peers: seq<Numbered<Peer>>
    var msgCounter: nat
    var peerCounter: nat
    /** Everything ever logged. */
    ghost var allMessages: seq<Message>
    ghost var allPeers: seq<Peer>

    ghost predicate Valid()
      reads this
    {
      IsWindow(messages, allMessages, msgCounter) && IsWindow(peers, allPeers, peerCounter)
    }

    constructor ()
      ensures Valid() && allMessages == [] && allPeers == []
    {
      messages, peers, msgCounter, peerCounter := [], [], 0, 0;
      allMessages, allPeers := [], [];
    }

    method AddMessage(text: string, kind: int, timestamp: int)
      requires Valid()
      modifies this`messages, this`msgCounter, this`allMessages
      ensures Valid() && allMessages == old(allMessages) + [Message(text, kind, timestamp)]
    {
      var msg := Message(text, kind, timestamp);
      PushKeepsWindow(messages, allMessages, msgCounter, msg);
      messages := PushBack(messages, Numbered(msgCounter, msg));
      msgCounter := msgCounter + 1;
      allMessages := allMessages + [msg];
    }

    method AddPeer(ip: string, blocked: bool, reason: string, timestamp: int)
      requires Valid()
      modifies this`peers, this`peerCounter, this`allPeers
      ensures Valid() && allPeers == old(allPeers) + [Peer(ip, blocked, reason, timestamp)]
    {
      var peer := Peer(ip, blocked, reason, timestamp);
      PushKeepsWindow(peers, allPeers, peerCounter, peer);
      peers := PushBack(peers, Numbered(peerCounter, peer));
      peerCounter := peerCounter + 1;
      allPeers := allPeers + [peer];
    }

    method GetMessages(lastKnownId: int) returns (r: seq<Numbered<Message>>)
      requires Valid()
      ensures IsNewer(r, messages, lastKnownId)
    {
      r := LoadNewer(messages, msgCounter, lastKnownId, allMessages);
    }

    method GetPeers(lastKnownId: int) returns (r: seq<Numbered<Peer>>)
      requires Valid()
      ensures IsNewer(r, peers, lastKnownId)
    {
      r := LoadNewer(peers, peerCounter, lastKnownId, allPeers);
    }
  }

  // ----- A client that polls -----

  /** The log, and a client that asks for what is newer than the last id it got. */
  datatype System<T> = System(ring: seq<Numbered<T>>, counter: nat, lastKnownId: int, seen: seq<Numbered<T>>)

  datatype Event<T> = Logged(body: T) | Polled

  /** The answer to a poll, from the ids alone. */
  function Newer<T>(ring: seq<Numbered<T>>, lastKnownId: int): seq<Numbered<T>> {
    if ring != [] && ring[0].id <= lastKnownId then Newer(ring[1..], lastKnownId) else ring
  }

  function Next<T>(s: System<T>, e: Event<T>): System<T> {
    match e
    case Logged(body) => s.(ring := PushBack(s.ring, Numbered(s.counter, body)), counter := s.counter + 1)
    case Polled =>
      var r := Newer(s.ring, s.lastKnownId);
      s.(seen := s.seen + r, lastKnownId := if r == [] then s.lastKnownId else r[|r| - 1].id)
  }

  function Run<T>(s: System<T>, events: seq<Event<T>>): System<T>
    decreases |events|
  {
    if events == [] then s else Next(Run(s, events[..|events| - 1]), events[|events| - 1])
  }

  function Bodies<T>(events: seq<Event<T>>): seq<T>
    decreases |events|
  {
    if events == [] then []
    else
      var last := events[|events| - 1];
      Bodies(events[..|events| - 1]) + if last.Logged? then [last.body] else []
  }

  lemma {:induction false} NewerIsUnique<T>(r: seq<Numbered<T>>, ring: seq<Numbered<T>>, lastKnownId: int)
    requires IsNewer(r, ring, lastKnownId)
    ensures r == Newer(ring, lastKnownId)
    decreases |ring|
  {
    if |r| < |ring| {
      assert ring[0].id <= lastKnownId;
      assert ring[1..][|ring[1..]| - |r|..] == ring[|ring| - |r|..];
      NewerIsUnique(r, ring[1..], lastKnownId);
    }
  }

  /** The first id that a poll of the ring delivers. */
  function FirstNew<T>(ring: seq<Numbered<T>>, counter: nat, lastKnownId: int): (from: int)
    requires |ring| <= counter && -1 <= lastKnownId < counter
    ensures 0 <= from <= counter
    ensures from > lastKnownId
  {
    if lastKnownId + 1 >= counter - |ring| then lastKnownId + 1 else counter - |ring|
  }

  /** `r` holds the messages with the ids from `from` to before `counter`. */
  ghost predicate IsRange<T>(r: seq<Numbered<T>>, all: seq<T>, from: nat, counter: nat) {
    from <= counter == |all| && |r| == counter - from && forall i | 0 <= i < |r| :: r[i] == Numbered(from + i, all[from + i])
  }

  lemma NewerOfWindow<T>(ring: seq<Numbered<T>>, all: seq<T>, counter: nat, lastKnownId: int)
    requires IsWindow(ring, all, counter) && -1 <= lastKnownId < counter
    ensures IsRange(Newer(ring, lastKnownId), all, FirstNew(ring, counter, lastKnownId), counter)
  {
    hide Newer;
    var r := ring[FirstNew(ring, counter, lastKnownId) - (counter - |ring|)..];
    FromFirstNew(ring, all, counter, lastKnownId);
    NewerIsUnique(r, ring, lastKnownId);
  }

  lemma RangeFrom<T>(ring: seq<Numbered<T>>, all: seq<T>, counter: nat, offset: nat)
    requires IsWindow(ring, all, counter) && offset <= |ring|
    ensures IsRange(ring[offset..], all, counter - |ring| + offset, counter)
  {
  }

  lemma NewerFrom<T>(ring: seq<Numbered<T>>, first: int, lastKnownId: int, offset: nat)
    requires forall i | 0 <= i < |ring| :: ring[i].id == first + i
    requires offset <= |ring|
    requires offset < |ring| ==> first + offset > lastKnownId
    requires offset > 0 ==> first + offset - 1 <= lastKnownId
    ensures IsNewer(ring[offset..], ring, lastKnownId)
  {
    var r := ring[offset..];
    assert |ring| - |r| == offset;
    forall i | 0 <= i < |r|
      ensures r[i].id > lastKnownId
    {
      assert r[i] == ring[offset + i];
    }
  }

  lemma FromFirstNew<T>(ring: seq<Numbered<T>>, all: seq<T>, counter: nat, lastKnownId: int)
    requires IsWindow(ring, all, counter) && -1 <= lastKnownId < counter
    ensures var from := FirstNew(ring, counter, lastKnownId);
            var r := ring[from - (counter - |ring|)..];
            IsNewer(r, ring, lastKnownId) && IsRange(r, all, from, counter)
  {
    var offset := FirstNew(ring, counter, lastKnownId) - (counter - |ring|);
    RangeFrom(ring, all, counter, offset);
    NewerFrom(ring, counter - |ring|, lastKnownId, offset);
  }

  ghost predicate Increasing<T>(seen: seq<Numbered<T>>) {
    forall i, j | 0 <= i < j < |seen| :: seen[i].id < seen[j].id
  }

  /** What the client has is genuine, in order, without repetition, and up to the id it asks from. */
  ghost predicate Faithful<T>(s: System<T>, all: seq<T>) {
    && IsWindow(s.ring, all, s.counter) && -1 <= s.lastKnownId < s.counter
    && Genuine(s.seen, all, s.lastKnownId)
  }

  /** What the client has seen so far, and what follows on it. */
  ghost predicate Genuine<T>(seen: seq<Numbered<T>>, all: seq<T>, upTo: int) {
    Increasing(seen) && forall i | 0 <= i < |seen| :: seen[i].id <= upTo < |all| && seen[i].body == all[seen[i].id]
  }

  lemma SeenGoesOn<T>(seen: seq<Numbered<T>>, r: seq<Numbered<T>>, all: seq<T>, upTo: int, from: nat, counter: nat)
    requires Genuine(seen, all, upTo) && IsRange(r, all, from, counter) && upTo < from
    ensures Genuine(seen + r, all, counter - 1)
  {
    forall i, j | 0 <= i < j < |seen + r|
      ensures (seen + r)[i].id < (seen + r)[j].id
    {
    }
  }

  lemma NextStaysFaithful<T>(s: System<T>, all: seq<T>, e: Event<T>)
    requires Faithful(s, all)
    ensures Faithful(Next(s, e), if e.Logged? then all + [e.body] else all)
  {
    match e
    case Logged(body) =>
      PushKeepsWindow(s.ring, all, s.counter, body);
      hide IsWindow;
      hide PushBack;
      assert Genuine(s.seen, all + [body], s.lastKnownId);
    case Polled =>
      NewerOfWindow(s.ring, all, s.counter, s.lastKnownId);
      var from := FirstNew(s.ring, s.counter, s.lastKnownId);
      hide IsWindow;
      hide Newer;
      SeenGoesOn(s.seen, Newer(s.ring, s.lastKnownId), all, s.lastKnownId, from, s.counter);
  }

  /** A polling client sees no message twice, and every one as it was logged. */
  lemma {:induction false} ClientSeesNoneTwice<T>(events: seq<Event<T>>)
    ensures Faithful(Run(System([], 0, -1, []), events), Bodies(events))
    decreases |events|
  {
    if events != [] {
      ClientSeesNoneTwice(events[..|events| - 1]);
      NextStaysFaithful(Run(System([], 0, -1, []), events[..|events| - 1]), Bodies(events[..|events| - 1]), events[|events| - 1]);
    }
  }

  /**
   * A poll delivers exactly the ids logged since the last one that are still in the ring: what it
   * misses has been evicted in between.
   */
  lemma PollMissesOnlyEvicted<T>(s: System<T>, all: seq<T>, id: nat)
    requires Faithful(s, all) && s.lastKnownId < id < s.counter
    ensures var t := Next(s, Polled);
            && t.lastKnownId == s.counter - 1
            && (Numbered(id, all[id]) in t.seen <==> id >= s.counter - |s.ring|)
            && |s.ring| == if s.counter <= 20000 then s.counter else 20000
  {
    NewerOfWindow(s.ring, all, s.counter, s.lastKnownId);
    var from, r := FirstNew(s.ring, s.counter, s.lastKnownId), Newer(s.ring, s.lastKnownId);
    hide Newer;
    if id >= from {
      assert r[id - from] == Numbered(id, all[id]);
      assert (s.seen + r)[|s.seen| + id - from] == Numbered(id, all[id]);
    }
  }
}
