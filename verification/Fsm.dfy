/** The replicated key-value state machine. */
module Fsm {
  import opened Basics
  import opened Windows

  type Bytes = seq<nat>
  type KV = map<string, string>

  datatype Command = Command(op: string, key: string, value: string)

  /** What raft's log holds for the state machine; configuration entries never reach `Apply`. */
  datatype Entry = CommandEntry(index: nat, term: nat, data: Bytes) | ConfigEntry(index: nat)

  datatype AppliedEntry = AppliedEntry(index: nat, term: nat, command: Command)

  /**
   The JSON codec, abstractly. A `None` inside an `Option<KV>` is a nil map, which JSON writes as null;
   a `None` around a result is a decoding error.
   */
  datatype Codec = Codec(
    command: Bytes -> Option<Command>,
    encode: Option<KV> -> Bytes,
    decode: Bytes -> Option<Option<KV>>,
    valid: string -> bool)

  ghost predicate ValidMap(c: Codec, m: KV)
  {
    forall k :: k in m ==> c.valid(k) && c.valid(m[k])
  }

  /** All that is asked of the codec: decoded strings are valid, and maps of valid strings round-trip. */
  ghost predicate Good(c: Codec)
  {
    && (forall b :: c.command(b).Some? ==> c.valid(c.command(b).value.key) && c.valid(c.command(b).value.value))
    && (forall m :: ValidMap(c, m) ==> c.decode(c.encode(Some(m))) == Some(Some(m)))
  }

  const MAX_APPLIED: nat := 100
  const OP_SET := "SET"
  const OP_DELETE := "DELETE"

  datatype Outcome = Success(command: Command) | Malformed | UnknownOp | Panic

  /** What `Apply` makes of one entry: the outcome and the new data. A write to a nil map panics. */
  function Execute(c: Codec, data: Option<KV>, bytes: Bytes): (Outcome, Option<KV>)
  {
    match c.command(bytes)
    case None => (Malformed, data)
    case Some(cmd) =>
      if cmd.op == OP_SET then
        if data.None? then (Panic, data) else (Success(cmd), Some(data.value[cmd.key := cmd.value]))
      else if cmd.op == OP_DELETE then
        (Success(cmd), if data.None? then None else Some(data.value - {cmd.key}))
      else (UnknownOp, data)
  }

  // ---- reference definitions -------------------------------------------------------------------

  /** The plain fold over a log. */
  function Fold(c: Codec, log: seq<Entry>): KV
  {
    if log == [] then map[]
    else
      var before, last := Fold(c, log[..|log| - 1]), log[|log| - 1];
      if last.ConfigEntry? || c.command(last.data).None? then before
      else
        var cmd := c.command(last.data).value;
        if cmd.op == OP_SET then before[cmd.key := cmd.value]
        else if cmd.op == OP_DELETE then before - {cmd.key}
        else before
  }

  /** What the newest command on `key` says of it. */
  function LastWrite(c: Codec, log: seq<Entry>, key: string): Option<string>
  {
    if log == [] then None
    else
      var last, older := log[|log| - 1], log[..|log| - 1];
      if last.CommandEntry? && c.command(last.data).Some? && c.command(last.data).value.key == key &&
         c.command(last.data).value.op in [OP_SET, OP_DELETE]
      then if c.command(last.data).value.op == OP_SET then Some(c.command(last.data).value.value) else None
      else LastWrite(c, older, key)
  }

  lemma {:induction false} FoldIsLastWrite(c: Codec, log: seq<Entry>, key: string)
    ensures (if key in Fold(c, log) then Some(Fold(c, log)[key]) else None) == LastWrite(c, log, key)
  {
    if log != [] {
      FoldIsLastWrite(c, log[..|log| - 1], key);
    }
  }

  lemma {:induction false} FoldValid(c: Codec, log: seq<Entry>)
    requires Good(c)
    ensures ValidMap(c, Fold(c, log))
  {
    if log != [] {
      FoldValid(c, log[..|log| - 1]);
    }
  }

  /** In the words of the wire format: what one more entry does to the fold. */
  lemma FoldWrites(c: Codec, log: seq<Entry>, e: Entry, key: string, value: string)
    ensures e.CommandEntry? && c.command(e.data) == Some(Command("SET", key, value)) ==>
              key in Fold(c, log + [e]) && Fold(c, log + [e])[key] == value && Fold(c, log + [e]) - {key} == Fold(c, log) - {key}
    ensures e.CommandEntry? && c.command(e.data) == Some(Command("DELETE", key, value)) ==>
              key !in Fold(c, log + [e]) && Fold(c, log + [e]) == Fold(c, log) - {key}
    ensures e.ConfigEntry? || c.command(e.data).None? || c.command(e.data).value.op !in {"SET", "DELETE"} ==>
              Fold(c, log + [e]) == Fold(c, log)
  {
    assert (log + [e])[..|log|] == log;
  }

  /** Executing the next entry on the fold of a log gives the fold of the longer log, and never panics. */
  lemma ExecuteFolds(c: Codec, log: seq<Entry>, e: Entry)
    ensures Fold(c, log + [e]) == if e.ConfigEntry? then Fold(c, log) else Execute(c, Some(Fold(c, log)), e.data).1.value
    ensures e.CommandEntry? ==> !Execute(c, Some(Fold(c, log)), e.data).0.Panic? && Execute(c, Some(Fold(c, log)), e.data).1.Some?
  {
    assert (log + [e])[..|log|] == log;
  }

  // ---- the object ------------------------------------------------------------------------------

  /** A Go map: a reference to entries that all holders share. */
  class GoMap {
    var entries: KV

    constructor (entries: KV)
      ensures this.entries == entries
    {
      this.entries := entries;
    }
  }

  function View(m: GoMap?): Option<KV>
    reads m
  {
    if m == null then None else Some(m.entries)
  }

  /** `maps.Clone`: nil stays nil, anything else gets a map of its own. */
  method CloneMap(m: GoMap?) returns (copy: GoMap?)
    ensures copy != null ==> fresh(copy)
    ensures View(copy) == View(m)
  {
    if m == null {
      return null;
    }
    copy := new GoMap(m.entries);
  }

  class KVSnapshot {
    const data: GoMap?

    constructor (data: GoMap?)
      ensures this.data == data
    {
      this.data := data;
    }

    /** Writes the snapshot; any failure of the sink cancels it and leaves nothing behind. */
    method Persist(c: Codec, writeOk: bool, closeOk: bool) returns (file: Option<Bytes>)
      ensures file == if writeOk && closeOk then Some(c.encode(View(data))) else None
    {
      if !writeOk {
        return None;
      }
      if !closeOk {
        return None;
      }
      file := Some(c.encode(View(data)));
    }
  }

  class KVStoreFSM {
    const codec: Codec
    var data: GoMap?
    const history: Window<AppliedEntry>
    var callbacks: seq<nat>
    var restoreCallback: Option<nat>

    ghost predicate Valid()
      reads this, history, history.arr
    {
      history.Valid() && history.max == 100
    }

    constructor (codec: Codec)
      ensures Valid() && this.codec == codec && data != null && fresh(data) && data.entries == map[]
      ensures fresh(history) && fresh(history.arr) && history.log == [] && callbacks == [] && restoreCallback == None
    {
      this.codec := codec;
      data := new GoMap(map[]);
      history := new Window(MAX_APPLIED);
      callbacks, restoreCallback := [], None;
    }

    /** Returns nil error as `ok`, and the callback goroutines it starts. */
    method Apply(index: nat, term: nat, bytes: Bytes) returns (ok: bool, launched: seq<(nat, AppliedEntry)>)
      requires Valid() && !Execute(codec, View(data), bytes).0.Panic?
      modifies data, history, history.arr
      ensures Valid() && (history.arr == old(history.arr) || fresh(history.arr))
      ensures View(data) == Execute(codec, old(View(data)), bytes).1
      ensures ok <==> Execute(codec, old(View(data)), bytes).0.Success?
      ensures ok <==> codec.command(bytes).Some? && codec.command(bytes).value.op in {"SET", "DELETE"}
      ensures ok && codec.command(bytes).value.op == "SET" ==>
                data != null && data.entries == old(data.entries)[codec.command(bytes).value.key := codec.command(bytes).value.value]
      ensures ok && codec.command(bytes).value.op == "DELETE" && data != null ==>
                data.entries == old(data.entries) - {codec.command(bytes).value.key}
      ensures !ok && data != null ==> data.entries == old(data.entries)
      ensures ok ==> history.Contents() == LastN(old(history.Contents()) + [AppliedEntry(index, term, codec.command(bytes).value)], 100)
      ensures ok ==> history.log == old(history.log) + [AppliedEntry(index, term, codec.command(bytes).value)]
      ensures !ok ==> history.log == old(history.log) && history.Contents() == old(history.Contents())
      ensures |launched| == if ok then |callbacks| else 0
      ensures forall i :: 0 <= i < |launched| ==>
                launched[i] == (callbacks[i], AppliedEntry(index, term, codec.command(bytes).value))
    {
      ok, launched := false, [];
      var parsed := codec.command(bytes);
      if parsed.None? {
        return;
      }
      var cmd := parsed.value;
      if cmd.op == OP_SET {
        data.entries := data.entries[cmd.key := cmd.value];
      } else if cmd.op == OP_DELETE {
        if data != null {
          data.entries := data.entries - {cmd.key};
        }
      } else {
        return;
      }
      var applied := AppliedEntry(index, term, cmd);
      history.DropThenPush(applied);
      ok := true;
      var i := 0;
      while i < |callbacks|
        invariant 0 <= i <= |callbacks| && |launched| == i
        invariant forall j :: 0 <= j < i ==> launched[j] == (callbacks[j], applied)
      {
        launched := launched + [(callbacks[i], applied)];
        i := i + 1;
      }
    }

    method Snapshot() returns (snap: KVSnapshot)
      ensures View(snap.data) == View(data)
      ensures snap.data != null ==> fresh(snap.data)
    {
      var copy := CloneMap(data);
      snap := new KVSnapshot(copy);
    }

    /** Replaces the data, keeps the history; bytes that do not decode change nothing and notify nobody. */
    method Restore(bytes: Bytes) returns (ok: bool, launched: Option<(nat, nat)>)
      modifies this`data
      ensures ok <==> codec.decode(bytes).Some?
      ensures ok ==> View(data) == codec.decode(bytes).value && (data != null ==> fresh(data))
      ensures !ok ==> data == old(data) && launched == None
      ensures ok && restoreCallback.None? ==> launched == None
      ensures ok && restoreCallback.Some? ==>
                launched == Some((restoreCallback.value, if codec.decode(bytes).value.Some? then |codec.decode(bytes).value.value| else 0))
    {
      launched := None;
      var decoded := codec.decode(bytes);
      if decoded.None? {
        return false, None;
      }
      if decoded.value.None? {
        data := null;
      } else {
        data := new GoMap(decoded.value.value);
      }
      ok := true;
      if restoreCallback.Some? {
        launched := Some((restoreCallback.value, if data == null then 0 else |data.entries|));
      }
    }
  }

  /** A snapshot persisted after any number of later applies writes the state it was taken at. */
  method PersistLate(f: KVStoreFSM, index: nat, entries: seq<Bytes>) returns (file: Option<Bytes>)
    requires f.Valid() && f.data != null
    modifies f.data, f.history, f.history.arr
    ensures file == Some(f.codec.encode(Some(old(f.data.entries))))
    ensures f.data == old(f.data)
    ensures f.data.entries == ExecuteAll(f.codec, old(f.data.entries), entries)
  {
    var snap := f.Snapshot();
    var i := 0;
    while i < |entries|
      invariant 0 <= i <= |entries|
      invariant f.Valid() && (f.history.arr == old(f.history.arr) || fresh(f.history.arr))
      invariant View(snap.data) == Some(old(f.data.entries)) && fresh(snap.data)
      invariant f.data.entries == ExecuteAll(f.codec, old(f.data.entries), entries[..i])
    {
      var _, _ := f.Apply(index + i, 0, entries[i]);
      assert entries[..i + 1][..i] == entries[..i];
      i := i + 1;
    }
    assert entries[..i] == entries;
    file := snap.Persist(f.codec, true, true);
  }

  function ExecuteAll(c: Codec, data: KV, entries: seq<Bytes>): KV
  {
    if entries == [] then data
    else Execute(c, Some(ExecuteAll(c, data, entries[..|entries| - 1])), entries[|entries| - 1]).1.value
  }
}
