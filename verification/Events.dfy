/** Events of the cluster and the cache each kind of event is recorded in. */
module Events {
  import opened Basics
  import Decimal

  datatype EventType =
    | StateSnapshot | LeaderChanged | TermChanged | PeerJoined | PeerRemoved
    | LogReplicated | LogApplied | HeartbeatSent | HeartbeatReceived
    | AppendEntriesSent | AppendEntriesResult | AppendEntriesRecv
    | VoteRequested | VoteGranted | VoteRejected | LeadershipTransfer
    | SnapshotInstall | SnapshotCreated | FSMRestored | ConfigChanged
    | ProposalForwarded | ProposalReceived | ElectionStarted | LeadershipLost
    | NodeStatusChanged | SyncComplete

  /** `body` stands for the message, the timestamp and the JSON payload. */
  datatype Event = Event(id: string, typ: EventType, nodeID: string, term: nat, body: nat)

  datatype Cache = NoCache | History | Batches

  /** The `switch` under the write lock in `broadcastDirect`. */
  function CacheOf(t: EventType): Cache
  {
    if t == HeartbeatSent || t == HeartbeatReceived then Batches
    else if t != StateSnapshot then History
    else NoCache
  }

  const MAX_HISTORY: nat := 50
  const MAX_HB_HISTORY: nat := 10
  const CLIENT_BUFFER: nat := 64

  /** `fmt.Sprintf("evt-%d-%d", millis, sequence)`. */
  function EventID(millis: int, sequence: nat): (id: string)
  {
    "evt-" + Decimal.PrintInt(millis) + "-" + Decimal.Print(sequence)
  }

  /** The ID spells the clock reading and the sequence number in decimal, between fixed marks. */
  lemma EventIDReads(millis: int, sequence: nat)
    ensures exists a, b :: EventID(millis, sequence) == "evt-" + a + "-" + b && Decimal.Spells(a, millis) && Decimal.Spells(b, sequence)
  {
    Decimal.PrintIntReadsBack(millis);
    Decimal.PrintIntReadsBack(sequence);
    assert EventID(millis, sequence) == "evt-" + Decimal.PrintInt(millis) + "-" + Decimal.PrintInt(sequence);
    hide Decimal.Spells, Decimal.PrintInt, Decimal.Print;
  }

  /** Whatever the clock said, two IDs are equal only if they carry the same sequence number. */
  lemma EventIDInjective(m0: int, s0: nat, m1: int, s1: nat)
    requires EventID(m0, s0) == EventID(m1, s1)
    ensures s0 == s1
  {
    Decimal.SuffixInjective("evt-" + Decimal.PrintInt(m0), s0, "evt-" + Decimal.PrintInt(m1), s1);
  }

  /** What a cache holds after an event of type `typ` is recorded: only the cache of its kind changes. */
  function Cached<T>(contents: seq<T>, x: T, typ: EventType, cache: Cache, max: nat): seq<T>
  {
    if CacheOf(typ) == cache then LastN(contents + [x], max) else contents
  }

  /** By event type: all but snapshots and heartbeats go to the history of 50, heartbeats to the batches of 10. */
  lemma CachedByType<T>(contents: seq<T>, x: T, typ: EventType)
    ensures Cached(contents, x, typ, History, MAX_HISTORY) ==
            if typ in {StateSnapshot, HeartbeatSent, HeartbeatReceived} then contents else LastN(contents + [x], 50)
    ensures Cached(contents, x, typ, Batches, MAX_HB_HISTORY) ==
            if typ in {HeartbeatSent, HeartbeatReceived} then LastN(contents + [x], 10) else contents
  {
    hide LastN;
  }

  /** What a client channel holds after the non-blocking send: a full channel drops the event. */
  function Offered<T>(buf: seq<T>, x: T): seq<T>
  {
    if |buf| < CLIENT_BUFFER then buf + [x] else buf
  }
}
