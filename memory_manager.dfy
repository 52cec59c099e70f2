/** The conversation memory manager: session identifiers drawn from a
    per-instance counter, the configuration handed to the compiled graph,
    and the lookup of a thread's last checkpoint. The SQLite checkpoint saver is
    abstract: a map from thread id to what `get_tuple` answers for it. */
module Memory {
  import opened Strings
  import opened Documents

  const DEFAULT_DB_PATH := "checkpoints.db"

  /** A saved checkpoint; `channelValues` is None when the checkpoint has no
      "channel_values" entry. The state channels are kept as a dictionary. */
  datatype Checkpoint = Checkpoint(channelValues: Option<Meta>)

  /** What the checkpoint saver does for a thread it holds: it raises, or it
      finds the thread's latest checkpoint. */
  datatype StoreReply = Raises | Found(checkpoint: Checkpoint)

  /** The checkpoint saver's contents; a thread id that is not a key has no
      checkpoint (`get_tuple` returns None). */
  type CheckpointStore = map<string, StoreReply>

  /** The configuration `get_config_for_thread` returns. */
  type Config = map<string, map<string, string>>

  // ---------------------------------------------------------------------------
  // Session identifiers

  /** `f"user_{user_id}_{counter}"`. */
  function SessionId(userId: string, counter: nat): (id: string)
    ensures StartsWith(id, "user_" + userId + "_")
    ensures |id| == 6 + |userId| + |NatToString(counter)|
  {
    "user_" + userId + "_" + NatToString(counter)
  }

  /** The text after the last "_" of a session id is the counter, in
      decimal, whatever "_" the user id itself contains. */
  lemma SessionIdSuffix(userId: string, counter: nat)
    ensures Last(Split(SessionId(userId, counter), '_')) == NatToString(counter)
    ensures ParseNat(Last(Split(SessionId(userId, counter), '_'))) == counter
  {
    var digits := NatToString(counter);
    assert SessionId(userId, counter) == ("user_" + userId) + ['_'] + digits;
    SplitConcat("user_" + userId, digits, '_');
    SplitWithoutSep(digits, '_');
    ParseNatToString(counter);
  }

  /** Ids drawn with different counter values differ, for any two users. */
  lemma SessionIdsDistinct(user1: string, counter1: nat, user2: string, counter2: nat)
    requires counter1 != counter2
    ensures SessionId(user1, counter1) != SessionId(user2, counter2)
  {
    if SessionId(user1, counter1) == SessionId(user2, counter2) {
      SessionIdSuffix(user1, counter1);
      SessionIdSuffix(user2, counter2);
      NatToStringInjective(counter1, counter2);
    }
  }

  /** The ids one instance hands out to `users`, in call order. */
  function SessionIds(users: seq<string>): (ids: seq<string>)
    ensures |ids| == |users|
    ensures forall i :: 0 <= i < |users| ==> ids[i] == SessionId(users[i], i)
  {
    seq(|users|, i requires 0 <= i < |users| => SessionId(users[i], i))
  }

  /** No id is handed out twice by one instance. */
  lemma SessionIdsUnique(users: seq<string>)
    ensures forall i, j :: 0 <= i < j < |users| ==> SessionIds(users)[i] != SessionIds(users)[j]
  {
    forall i, j | 0 <= i < j < |users|
      ensures SessionIds(users)[i] != SessionIds(users)[j]
    {
      SessionIdsDistinct(users[i], i, users[j], j);
    }
  }

  // ---------------------------------------------------------------------------
  // Configuration and checkpoint lookup

  /** `get_config_for_thread(thread_id)`: the only configurable entry is the
      thread id, which reads back unchanged. */
  function ConfigForThread(threadId: string): (config: Config)
    ensures config.Keys == {"configurable"}
    ensures config["configurable"].Keys == {"thread_id"}
    ensures config["configurable"]["thread_id"] == threadId
  {
    map["configurable" := map["thread_id" := threadId]]
  }

  /** Configurations of different threads differ. */
  lemma ConfigForThreadInjective(t1: string, t2: string)
    requires ConfigForThread(t1) == ConfigForThread(t2)
    ensures t1 == t2
  {
    assert ConfigForThread(t1)["configurable"]["thread_id"] == t1;
  }

  /** The thread id the checkpoint saver is asked about for a configuration. */
  function ConfiguredThread(config: Config): (threadId: Option<string>)
    ensures threadId.Some? <==> "configurable" in config && "thread_id" in config["configurable"]
  {
    if "configurable" in config && "thread_id" in config["configurable"] then
      Some(config["configurable"]["thread_id"])
    else None
  }

  /** `saver.get_tuple(config)`: the latest checkpoint of the configured
      thread, None when it has none; it may raise. */
  function GetTuple(store: CheckpointStore, config: Config): (reply: Option<StoreReply>)
    ensures reply.Some? <==> ConfiguredThread(config).Some? && ConfiguredThread(config).value in store
    ensures reply.Some? ==> reply.value == store[ConfiguredThread(config).value]
  {
    match ConfiguredThread(config)
    case None => None
    case Some(threadId) => if threadId in store then Some(store[threadId]) else None
  }

  /** `get_last_state(thread_id)`: None when the thread has no checkpoint or
      the checkpoint saver raises; otherwise the checkpoint's channel values,
      an empty dictionary when it has none. */
  function LastState(store: CheckpointStore, threadId: string): (state: Option<Meta>)
    ensures state.None? <==> threadId !in store || store[threadId].Raises?
    ensures threadId in store && store[threadId].Found? ==>
      var saved := store[threadId].checkpoint.channelValues;
      && (saved.Some? ==> state == saved)
      && (saved.None? ==> state == Some(map[]))
  {
    match GetTuple(store, ConfigForThread(threadId))
    case None => None
    case Some(Raises) => None
    case Some(Found(checkpoint)) =>
      if checkpoint.channelValues.Some? then checkpoint.channelValues else Some(map[])
  }

  /** The write the checkpoint saver makes when the graph finishes a turn on a
      thread: the thread's checkpoint is replaced as a whole. */
  function Put(store: CheckpointStore, threadId: string, values: Meta): (updated: CheckpointStore)
    ensures updated.Keys == store.Keys + {threadId}
    ensures forall t :: t in store && t != threadId ==> updated[t] == store[t]
  {
    store[threadId := Found(Checkpoint(Some(values)))]
  }

  /** After a write, the thread's last state is what was written and every
      other thread's last state is as before. */
  lemma PutThenLastState(store: CheckpointStore, threadId: string, values: Meta, other: string)
    ensures LastState(Put(store, threadId, values), threadId) == Some(values)
    ensures other != threadId ==> LastState(Put(store, threadId, values), other) == LastState(store, other)
  {
  }

  /** A second write to a thread replaces the first completely: every
      thread's last state reads as if only the second write had been made. */
  lemma PutReplaces(store: CheckpointStore, threadId: string, first: Meta, second: Meta, other: string)
    ensures LastState(Put(Put(store, threadId, first), threadId, second), other) ==
            LastState(Put(store, threadId, second), other)
    ensures LastState(Put(Put(store, threadId, first), threadId, second), threadId) == Some(second)
  {
    assert Put(Put(store, threadId, first), threadId, second) == Put(store, threadId, second);
    PutThenLastState(store, threadId, second, other);
  }

  // ---------------------------------------------------------------------------
  // The manager and its process-wide instance

  class MemoryManager {
    var dbPath: string
    /** The checkpoint saver over the database at `dbPath`. */
    var saver: CheckpointStore
    var sessionCounter: nat
    /** The user of every session this instance created, in call order. */
    ghost var sessionUsers: seq<string>

    ghost predicate Valid()
      reads this
    {
      |sessionUsers| == sessionCounter
    }

    /** The ids this instance has handed out. */
    ghost function Issued(): seq<string>
      reads this
    {
      SessionIds(sessionUsers)
    }

    /** `MemoryManager(db_path)`: the checkpoint saver over the database found at
        `dbPath`, and a counter at 0. */
    constructor (dbPath: string, store: CheckpointStore)
      ensures Valid()
      ensures this.dbPath == dbPath && saver == store
      ensures sessionCounter == 0 && Issued() == []
    {
      this.dbPath := dbPath;
      saver := store;
      sessionCounter := 0;
      sessionUsers := [];
    }

    /** `create_session(user_id)`: the id built from the counter's value
        before the call, which then goes up by one; the id is new to this
        instance and nothing else changes. */
    method CreateSession(userId: string) returns (threadId: string)
      requires Valid()
      modifies this
      ensures Valid()
      ensures threadId == SessionId(userId, old(sessionCounter))
      ensures sessionCounter == old(sessionCounter) + 1
      ensures threadId !in old(Issued())
      ensures Issued() == old(Issued()) + [threadId]
      ensures dbPath == old(dbPath) && saver == old(saver)
    {
      threadId := "user_" + userId + "_" + NatToString(sessionCounter);
      forall i | 0 <= i < |sessionUsers|
        ensures SessionIds(sessionUsers)[i] != threadId
      {
        SessionIdsDistinct(sessionUsers[i], i, userId, sessionCounter);
      }
      sessionCounter := sessionCounter + 1;
      sessionUsers := sessionUsers + [userId];
      assert SessionIds(sessionUsers) == SessionIds(old(sessionUsers)) + [threadId];
    }

    /** `get_last_state(thread_id)` over this manager's checkpoint saver. */
    function GetLastState(threadId: string): (state: Option<Meta>)
      reads this
      ensures state == LastState(saver, threadId)
      ensures state.None? <==> threadId !in saver || saver[threadId].Raises?
    {
      LastState(saver, threadId)
    }
  }

  /** Creating a session leaves every thread's last state as it was. */
  method CreateSessionKeepsState(m: MemoryManager, userId: string, threadId: string)
    returns (id: string)
    requires m.Valid()
    modifies m
    ensures m.GetLastState(threadId) == old(m.GetLastState(threadId))
  {
    id := m.CreateSession(userId);
  }

  /** The counter lives in the instance, not in the database: a manager
      built again over the same checkpoints hands out the first id of the
      earlier one again, and that id reads the earlier session's state. */
  method SessionIdsRepeatAcrossInstances(store: CheckpointStore, userId: string)
    returns (earlier: MemoryManager, first: string, later: MemoryManager, again: string)
    ensures earlier != later
    ensures first == again == SessionId(userId, 0)
    ensures later.GetLastState(again) == earlier.GetLastState(first) == LastState(store, first)
  {
    earlier := new MemoryManager(DEFAULT_DB_PATH, store);
    first := earlier.CreateSession(userId);
    later := new MemoryManager(DEFAULT_DB_PATH, store);
    again := later.CreateSession(userId);
  }

  /** The class attribute `MemoryManager._instance`. */
  class MemoryManagerHolder {
    var instance: MemoryManager?

    /** The instance, once created, is a well-formed manager. */
    ghost predicate Valid()
      reads this, instance
    {
      instance != null ==> instance.Valid()
    }

    constructor ()
      ensures Valid()
      ensures instance == null
    {
      instance := null;
    }

    /** `get_instance()` (and `get_memory_manager()`): the first call builds
        a manager over "checkpoints.db" with its counter at 0; every later
        call returns that same instance. */
    method GetInstance(store: CheckpointStore) returns (m: MemoryManager)
      requires Valid()
      modifies this
      ensures Valid() && m.Valid()
      ensures instance == m
      ensures old(instance) != null ==> m == old(instance)
      ensures old(instance) == null ==>
        fresh(m) && m.dbPath == DEFAULT_DB_PATH && m.saver == store && m.sessionCounter == 0
    {
      if instance == null {
        instance := new MemoryManager(DEFAULT_DB_PATH, store);
      }
      m := instance;
    }
  }

  /** `get_memory_manager().create_session(user_id)`: the process-wide
      manager hands out the id built from its counter, which is 0 when this
      call creates the manager. */
  method CreateSessionThroughInstance(h: MemoryManagerHolder, store: CheckpointStore, userId: string)
    returns (threadId: string)
    requires h.Valid()
    modifies h, h.instance
    ensures h.Valid() && h.instance != null
    ensures old(h.instance) == null ==> threadId == SessionId(userId, 0) && h.instance.sessionCounter == 1
    ensures old(h.instance) != null ==>
      && h.instance == old(h.instance)
      && threadId == SessionId(userId, old(h.instance.sessionCounter))
      && h.instance.sessionCounter == old(h.instance.sessionCounter) + 1
  {
    var m := h.GetInstance(store);
    threadId := m.CreateSession(userId);
  }
}
