/**
 `credential.MemStore`: secrets in byte buffers of their own, wiped before they are let go.
 */
module MemStore {
  import opened Options

  newtype byte = x: int | 0 <= x < 256

  datatype Entry = Entry(data: array<byte>, locked: bool)

  predicate AllZero(buf: seq<byte>) {
    forall i :: 0 <= i < |buf| ==> buf[i] == 0
  }

  /** `zeroize`: overwrite in place. */
  method Wipe(buf: array<byte>)
    modifies buf
    ensures AllZero(buf[..])
  {
    for i := 0 to buf.Length
      invariant AllZero(buf[..i])
    {
      buf[i] := 0;
      assert buf[..i + 1] == buf[..i] + [0];
    }
    assert buf[..] == buf[..buf.Length];
  }

  method CopyOf(value: array<byte>) returns (buf: array<byte>)
    ensures fresh(buf) && buf[..] == value[..]
  {
    buf := new byte[value.Length];
    for i := 0 to value.Length
      invariant buf[..i] == value[..i]
    {
      buf[i] := value[i];
      assert buf[..i + 1] == buf[..i] + [value[i]];
    }
    assert buf[..] == buf[..buf.Length] && value[..] == value[..value.Length];
  }

  /** The buffers of the entries flagged as locked. */
  ghost function LockedBuffers(entries: map<string, Entry>): set<array<byte>> {
    set k | k in entries && entries[k].locked :: entries[k].data
  }

  ghost function BuffersOf(entries: map<string, Entry>): set<array<byte>> {
    set k | k in entries :: entries[k].data
  }

  /** No two entries share a buffer. */
  ghost predicate Separate(entries: map<string, Entry>) {
    forall k, l :: k in entries && l in entries && k != l ==> entries[k].data != entries[l].data
  }

  lemma LockedWithout(entries: map<string, Entry>, key: string)
    requires Separate(entries) && key in entries
    ensures LockedBuffers(entries - {key})
         == (if entries[key].locked then LockedBuffers(entries) - {entries[key].data} else LockedBuffers(entries))
  {
    var rest := entries - {key};
    forall b | b in LockedBuffers(entries) && b != entries[key].data ensures b in LockedBuffers(rest) {
      var k :| k in entries && entries[k].locked && entries[k].data == b;
      assert k in rest && rest[k].locked && rest[k].data == b;
    }
    forall b | b in LockedBuffers(rest) ensures b in LockedBuffers(entries) && b != entries[key].data {
      var k :| k in rest && rest[k].locked && rest[k].data == b;
      assert k in entries && entries[k].locked && entries[k].data == b;
    }
  }

  lemma FewerKeys(entries: map<string, Entry>, key: string)
    requires key in entries
    ensures |(entries - {key}).Keys| < |entries.Keys|
  {
    assert (entries - {key}).Keys == entries.Keys - {key};
  }

  lemma LockedWith(entries: map<string, Entry>, key: string, e: Entry)
    requires key !in entries
    ensures LockedBuffers(entries[key := e])
            == (if e.locked then LockedBuffers(entries) + {e.data} else LockedBuffers(entries))
  {
    var more := entries[key := e];
    forall b | b in LockedBuffers(entries) ensures b in LockedBuffers(more) {
      var k :| k in entries && entries[k].locked && entries[k].data == b;
      assert k in more && more[k].locked && more[k].data == b;
    }
    if e.locked {
      assert key in more && more[key].locked && more[key].data == e.data;
    }
  }

  lemma LockedReplaced(entries: map<string, Entry>, key: string, e: Entry)
    requires Separate(entries)
    ensures var held := if key in entries && entries[key].locked then {entries[key].data} else {};
            var rest := LockedBuffers(entries) - held;
            LockedBuffers(entries[key := e]) == (if e.locked then rest + {e.data} else rest)
  {
    if key in entries {
      LockedWithout(entries, key);
      assert entries[key := e] == (entries - {key})[key := e];
      LockedWith(entries - {key}, key, e);
    } else {
      LockedWith(entries, key, e);
    }
  }

  /** A buffer of nobody's takes the place of the one `key` had, which is then nobody's. */
  lemma SeparateReplaced(entries: map<string, Entry>, key: string, e: Entry)
    requires Separate(entries) && forall k :: k in entries ==> entries[k].data != e.data
    ensures Separate(entries[key := e])
    ensures key in entries ==> entries[key].data !in LockedBuffers(entries[key := e])
  {
  }

  class Store {
    var entries: map<string, Entry>

    // What the operating system has pinned for this store, and whether a secret was ever unpinned unwiped.
    ghost var pinned: set<array<byte>>
    ghost var unpinnedDirty: bool

    ghost function Buffers(): set<array<byte>>
      reads this
    {
      BuffersOf(entries)
    }

    /** Entries share no buffer; pinned are exactly the buffers of the entries flagged as locked. */
    ghost predicate Valid()
      reads this
    {
      Separate(entries) && pinned == LockedBuffers(entries) && !unpinnedDirty
    }

    /** The map this store stands for. */
    ghost function Contents(): map<string, seq<byte>>
      reads this, Buffers()
    {
      map k | k in entries :: entries[k].data[..]
    }

    constructor ()
      ensures Valid() && Contents() == map[] && Buffers() == {}
    {
      entries := map[];
      pinned := {};
      unpinnedDirty := false;
    }

    /** `mlockBytes`: never for an empty buffer, otherwise as the system decides. */
    method Pin(buf: array<byte>, systemAllows: bool) returns (locked: bool)
      modifies this`pinned
      ensures locked == (buf.Length > 0 && systemAllows)
      ensures pinned == if locked then old(pinned) + {buf} else old(pinned)
    {
      locked := buf.Length > 0 && systemAllows;
      if locked {
        pinned := pinned + {buf};
      }
    }

    /** `munlockBytes`. */
    method Unpin(buf: array<byte>)
      modifies this`pinned, this`unpinnedDirty
      ensures pinned == old(pinned) - {buf}
      ensures unpinnedDirty == (old(unpinnedDirty) || !AllZero(buf[..]))
    {
      pinned := pinned - {buf};
      unpinnedDirty := unpinnedDirty || !AllZero(buf[..]);
    }

    /** Wipe an entry's buffer and only then unpin it. */
    method Retire(entry: Entry)
      modifies entry.data, this`pinned, this`unpinnedDirty
      ensures AllZero(entry.data[..]) && unpinnedDirty == old(unpinnedDirty)
      ensures pinned == if entry.locked then old(pinned) - {entry.data} else old(pinned)
    {
      Wipe(entry.data);
      if entry.locked {
        Unpin(entry.data);
      }
    }

    /** What becomes of the buffers when `key` gets a new entry. */
    method Swap(key: string, entry: Entry)
      requires Separate(entries) && entry.data !in Buffers()
      modifies this, if key in entries then {entries[key].data} else {}
      ensures entries == old(entries)[key := entry] && unpinnedDirty == old(unpinnedDirty)
      ensures var held := if key in old(entries) && old(entries)[key].locked then {old(entries)[key].data} else {};
              pinned == old(pinned) - held
      ensures Contents() == old(Contents())[key := old(entry.data[..])]
      ensures key in old(entries) ==> AllZero(old(entries)[key].data[..])
    {
      if key in entries {
        Retire(entries[key]);
      }
      entries := entries[key := entry];
    }

    /** The locked part of `Store`: retire what `key` held, then enter the new, already pinned buffer. */
    method Replace(key: string, entry: Entry)
      requires Separate(entries) && entry.data !in Buffers() && !unpinnedDirty
      requires pinned == if entry.locked then LockedBuffers(entries) + {entry.data} else LockedBuffers(entries)
      modifies this, Buffers()
      ensures Valid() && entries == old(entries)[key := entry]
      ensures Contents() == old(Contents())[key := old(entry.data[..])]
      ensures key in old(entries) ==> AllZero(old(entries)[key].data[..]) && old(entries)[key].data !in pinned
    {
      LockedReplaced(entries, key, entry);
      SeparateReplaced(entries, key, entry);
      Swap(key, entry);
    }

    /** `Store`: a copy goes in; the secret it replaces is wiped. */
    method Put(key: string, value: array<byte>, systemAllows: bool) returns (ok: bool)
      requires Valid()
      modifies this, Buffers()
      ensures Valid() && ok == (key != "")
      ensures !ok ==> entries == old(entries) && Contents() == old(Contents())
      ensures ok ==> Contents() == old(Contents())[key := old(value[..])]
      ensures ok ==> key in entries && fresh(entries[key].data) && entries == old(entries)[key := entries[key]]
      ensures ok ==> (entries[key].locked <==> value.Length > 0 && systemAllows)
      ensures ok && key in old(entries) ==> AllZero(old(entries)[key].data[..]) && old(entries)[key].data !in pinned
    {
      if key == "" {
        return false;
      }
      var buf := CopyOf(value);
      var locked := Pin(buf, systemAllows);
      assert Buffers() == old(Buffers()) && buf !in Buffers();
      assert Contents() == old(Contents());
      Replace(key, Entry(buf, locked));
      ok := true;
    }

    /** `Retrieve`: a copy goes out. */
    method Retrieve(key: string) returns (out: Option<array<byte>>)
      requires Valid()
      ensures out.Some? <==> key in Contents()
      ensures out.Some? ==> fresh(out.value) && out.value !in Buffers() && out.value[..] == Contents()[key]
    {
      if key !in entries {
        return None;
      }
      var copy := CopyOf(entries[key].data);
      out := Some(copy);
    }

    /** Retire the entry of `key` and delete it. */
    method Drop(key: string)
      requires Valid() && key in entries
      modifies this, entries[key].data
      ensures Valid() && entries == old(entries) - {key}
      ensures AllZero(old(entries)[key].data[..]) && old(entries)[key].data !in pinned
    {
      LockedWithout(entries, key);
      Retire(entries[key]);
      entries := entries - {key};
    }

    /** `Zeroize`. */
    method Zeroize(key: string)
      requires Valid()
      modifies this, Buffers()
      ensures Valid() && entries == old(entries) - {key} && Contents() == old(Contents()) - {key}
      ensures key in old(entries) ==> AllZero(old(entries)[key].data[..]) && old(entries)[key].data !in pinned
    {
      if key in entries {
        Drop(key);
      }
    }

    /** `ZeroizeAll`: every entry is visited once, in any order. */
    method ZeroizeAll()
      requires Valid()
      modifies this, Buffers()
      ensures Valid() && entries == map[] && Contents() == map[] && pinned == {}
      ensures forall b :: b in old(Buffers()) ==> AllZero(b[..])
    {
      ghost var was := entries;
      while entries != map[]
        invariant Valid() && Separate(was) && entries.Keys <= was.Keys
        invariant forall k :: k in entries ==> entries[k] == was[k]
        invariant forall k :: k in was && k !in entries ==> AllZero(was[k].data[..])
        decreases |entries.Keys|
      {
        var key :| key in entries;
        FewerKeys(entries, key);
        assert was[key].data in old(Buffers());
        Drop(key);
      }
    }
  }

  // ------------------------------------------------------- whole runs against a map

  datatype Op =
    | OpStore(key: string, value: seq<byte>, systemAllows: bool)
    | OpRetrieve(key: string)
    | OpZeroize(key: string)
    | OpZeroizeAll

  function MapAfter(m: map<string, seq<byte>>, op: Op): map<string, seq<byte>> {
    match op
    case OpStore(key, value, _) => if key == "" then m else m[key := value]
    case OpRetrieve(_) => m
    case OpZeroize(key) => m - {key}
    case OpZeroizeAll => map[]
  }

  function Answer(m: map<string, seq<byte>>, op: Op): Option<seq<byte>> {
    if op.OpRetrieve? && op.key in m then Some(m[op.key]) else None
  }

  function MapAfterAll(m: map<string, seq<byte>>, ops: seq<Op>): map<string, seq<byte>> {
    if ops == [] then m else MapAfter(MapAfterAll(m, ops[..|ops| - 1]), ops[|ops| - 1])
  }

  method FromSeq(s: seq<byte>) returns (a: array<byte>)
    ensures fresh(a) && a[..] == s
  {
    a := new byte[|s|](i requires 0 <= i < |s| => s[i]);
  }

  /** One operation by a client that keeps nothing but values. */
  method Perform(store: Store, op: Op) returns (answer: Option<seq<byte>>)
    requires store.Valid()
    modifies store, store.Buffers()
    ensures store.Valid() && fresh(store.Buffers() - old(store.Buffers()))
    ensures store.Contents() == MapAfter(old(store.Contents()), op)
    ensures answer == Answer(old(store.Contents()), op)
  {
    answer := None;
    match op {
      case OpStore(key, value, systemAllows) =>
        var a := FromSeq(value);
        var _ := store.Put(key, a, systemAllows);
      case OpRetrieve(key) =>
        var out := store.Retrieve(key);
        if out.Some? {
          answer := Some(out.value[..]);
        }
      case OpZeroize(key) => store.Zeroize(key);
      case OpZeroizeAll => store.ZeroizeAll();
    }
  }

  /** The answers of a plain map to a run of operations. */
  function Answers(m: map<string, seq<byte>>, ops: seq<Op>): seq<Option<seq<byte>>> {
    if ops == [] then []
    else
      var front := ops[..|ops| - 1];
      Answers(m, front) + [Answer(MapAfterAll(m, front), ops[|ops| - 1])]
  }

  lemma RunSnoc(m: map<string, seq<byte>>, ops: seq<Op>, i: nat)
    requires i < |ops|
    ensures Answers(m, ops[..i + 1]) == Answers(m, ops[..i]) + [Answer(MapAfterAll(m, ops[..i]), ops[i])]
    ensures MapAfterAll(m, ops[..i + 1]) == MapAfter(MapAfterAll(m, ops[..i]), ops[i])
  {
    assert ops[..i + 1][..i] == ops[..i];
  }

  /** Any run of operations on the store answers like the same run on a plain map. */
  method PerformAll(store: Store, ops: seq<Op>) returns (answers: seq<Option<seq<byte>>>)
    requires store.Valid()
    modifies store, store.Buffers()
    ensures store.Valid() && store.Contents() == MapAfterAll(old(store.Contents()), ops)
    ensures answers == Answers(old(store.Contents()), ops)
  {
    ghost var m := store.Contents();
    answers := [];
    for i := 0 to |ops|
      invariant store.Valid() && fresh(store.Buffers() - old(store.Buffers()))
      invariant store.Contents() == MapAfterAll(m, ops[..i])
      invariant answers == Answers(m, ops[..i])
    {
      RunSnoc(m, ops, i);
      var answer := Perform(store, ops[i]);
      answers := answers + [answer];
    }
    assert ops[..|ops|] == ops;
  }
}
