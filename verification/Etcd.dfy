/** The versioned key-value store (pkg/etcd) and the optimistic update on top of it. */
module Etcd {
  import opened Wrappers

  /** etcd counts the writes to a key since the key was created; a deleted key starts again at 1. */
  datatype Entry<V> = Entry(value: V, version: nat)

  type Store<V> = map<string, Entry<V>>

  datatype StoreError = KeyNotFound | KeyModified

  /** A write request.  `previous` is the version the key must have, 0 if it must not exist. */
  datatype Action<V> =
    Put(key: string, value: V) | Delete(key: string) | AtomicPut(key: string, value: V, previous: nat)

  function Version<V>(s: Store<V>, key: string): nat {
    if key in s then s[key].version else 0
  }

  function Write<V>(s: Store<V>, key: string, value: V): Store<V> {
    s[key := Entry(value, Version(s, key) + 1)]
  }

  function Do<V>(s: Store<V>, a: Action<V>): Store<V> {
    match a
    case Put(key, value) => Write(s, key, value)
    case Delete(key) => s - {key}
    case AtomicPut(key, value, previous) => if Version(s, key) == previous then Write(s, key, value) else s
  }

  function DoAll<V>(s: Store<V>, actions: seq<Action<V>>): Store<V>
    decreases actions
  {
    if actions == [] then s else DoAll(Do(s, actions[0]), actions[1..])
  }

  /** Every key present has been written at least once. */
  ghost predicate Sound<V>(s: Store<V>) {
    forall key :: key in s ==> s[key].version >= 1
  }

  lemma {:induction false} SoundAfter<V>(s: Store<V>, actions: seq<Action<V>>)
    requires Sound(s)
    ensures Sound(DoAll(s, actions))
    decreases actions
  {
    if actions != [] { SoundAfter(Do(s, actions[0]), actions[1..]); }
  }

  class SimpleEtcd<V(==)> {
    var kvs: Store<V>

    constructor ()
      ensures kvs == map[]
    {
      kvs := map[];
    }

    method Get(key: string) returns (r: Result<Entry<V>, StoreError>)
      ensures r == if key in kvs then Ok(kvs[key]) else Err(KeyNotFound)
    {
      if key in kvs { return Ok(kvs[key]); }
      return Err(KeyNotFound);
    }

    method Exists(key: string) returns (r: bool)
      ensures r == (key in kvs)
    {
      return key in kvs;
    }

    method Put(key: string, value: V)
      modifies this
      ensures kvs == Do(old(kvs), Action.Put(key, value))
    {
      var version := if key in kvs then kvs[key].version else 0;
      kvs := kvs[key := Entry(value, version + 1)];
    }

    method Delete(key: string) returns (r: Option<StoreError>)
      modifies this
      ensures kvs == Do(old(kvs), Action.Delete(key))
      ensures r == if key in old(kvs) then None else Some(KeyNotFound)
    {
      if key !in kvs { return Some(KeyNotFound); }
      kvs := kvs - {key};
      return None;
    }

    method AtomicPut(key: string, value: V, previous: nat) returns (r: Option<StoreError>)
      modifies this
      ensures kvs == Do(old(kvs), Action.AtomicPut(key, value, previous))
      ensures r == if Version(old(kvs), key) == previous then None else Some(KeyModified)
    {
      var version := if key in kvs then kvs[key].version else 0;
      if version != previous { return Some(KeyModified); }
      kvs := kvs[key := Entry(value, version + 1)];
      return None;
    }

    /** What other clients do to the store in the meantime. */
    method Others(actions: seq<Action<V>>)
      modifies this
      ensures kvs == DoAll(old(kvs), actions)
    {
      for i := 0 to |actions|
        invariant DoAll(old(kvs), actions) == DoAll(kvs, actions[i..])
      {
        var a := actions[i];
        assert actions[i..][0] == a && actions[i..][1..] == actions[i + 1..];
        match a
        case Put(key, value) => Put(key, value);
        case Delete(key) => var _ := Delete(key);
        case AtomicPut(key, value, previous) => var _ := AtomicPut(key, value, previous);
      }
    }
  }

  // ---- what a version comparison tells ----

  /** In the course of the actions the key is gone, and in the end it is there again. */
  ghost predicate Reborn<V>(s: Store<V>, actions: seq<Action<V>>, key: string) {
    key in DoAll(s, actions) && exists i :: 0 <= i <= |actions| && key !in DoAll(s, actions[..i])
  }

  lemma {:induction false} DoAllNext<V>(s: Store<V>, actions: seq<Action<V>>, i: nat)
    requires i < |actions|
    ensures DoAll(s, actions[..i + 1]) == Do(DoAll(s, actions[..i]), actions[i])
    decreases i
  {
    if i > 0 {
      var rest := actions[1..];
      DoAllNext(Do(s, actions[0]), rest, i - 1);
      assert actions[..i + 1][1..] == rest[..i] && actions[..i][1..] == rest[..i - 1];
    } else {
      assert actions[..1] == [actions[0]] && actions[..1][1..] == [] && actions[..0] == [];
    }
  }

  lemma {:induction false} PresentGrows<V>(s: Store<V>, actions: seq<Action<V>>, key: string, i: nat)
    requires i <= |actions| && forall j :: 0 <= j <= i ==> key in DoAll(s, actions[..j])
    ensures key in s
    ensures var t := DoAll(s, actions[..i]); t[key] == s[key] || t[key].version > s[key].version
  {
    assert actions[..0] == [] && DoAll(s, actions[..0]) == s;
    if i > 0 {
      PresentGrows(s, actions, key, i - 1);
      DoAllNext(s, actions, i - 1);
    }
  }

  /** Within one life of a key its version only grows, and changes whenever the value does. */
  lemma VersionsGrow<V>(s: Store<V>, actions: seq<Action<V>>, key: string)
    requires key in s && !Reborn(s, actions, key)
    ensures var t := DoAll(s, actions); key in t ==> t[key] == s[key] || t[key].version > s[key].version
  {
    if key in DoAll(s, actions) { PresentGrows(s, actions, key, |actions|); }
    assert actions[..|actions|] == actions;
  }

  /** The action is on another key, deletes, or is a swap by somebody who read the key before. */
  predicate CannotCreate<V>(a: Action<V>, key: string) {
    a.key == key ==> a.Delete? || (a.AtomicPut? && a.previous > 0)
  }

  /** A purge, with other writers in flight that read the node before, is not a rebirth: their swaps fail. */
  lemma PurgedIsNotReborn<V>(s: Store<V>, late: seq<Action<V>>, key: string)
    requires forall i :: 0 <= i < |late| ==> CannotCreate(late[i], key)
    ensures !Reborn(s, [Action.Delete(key)] + late, key)
  {
    var actions := [Action.Delete(key)] + late;
    assert actions[1..] == late;
    StaysAway(Do(s, Action.Delete(key)), late, key);
  }

  lemma {:induction false} StaysAway<V>(s: Store<V>, late: seq<Action<V>>, key: string)
    requires key !in s && forall i :: 0 <= i < |late| ==> CannotCreate(late[i], key)
    ensures key !in DoAll(s, late)
    decreases late
  {
    if late != [] {
      assert CannotCreate(late[0], key);
      StaysAway(Do(s, late[0]), late[1..], key);
    }
  }

  /** The key is reborn with another value, and has been written just as often as before. */
  ghost predicate Confused<V>(s: Store<V>, actions: seq<Action<V>>, key: string)
    requires key in s
  {
    var t := DoAll(s, actions);
    Reborn(s, actions, key) && t[key].version == s[key].version && t[key].value != s[key].value
  }

  /** A compare-and-swap succeeds exactly if the entry is still the one that was read, or the key is
    * confused; so it goes wrong only on keys that are deleted and created again. */
  lemma SwapMeansUnchanged<V>(s: Store<V>, actions: seq<Action<V>>, key: string)
    requires Sound(s) && key in s
    ensures var t := DoAll(s, actions);
      Version(t, key) == s[key].version <==> (key in t && t[key] == s[key]) || Confused(s, actions, key)
  {
    if !Reborn(s, actions, key) { VersionsGrow(s, actions, key); }
  }

  /** Deleting a key and creating it again hides the change, whatever the values: the comparison
    * succeeds on a value that was never read, and an update made for the old one replaces the new one. */
  lemma RebornKeysAreConfused<V>(key: string, old_: V, new_: V, updated: V)
    ensures var s: Store<V> := map[key := Entry(old_, 1)];
      var actions := [Action.Delete(key), Action.Put(key, new_)];
      var t := DoAll(s, actions);
      && Reborn(s, actions, key) && t[key].value == new_ && Version(t, key) == s[key].version
      && (new_ != old_ ==> Confused(s, actions, key))
      && Do(t, Action.AtomicPut(key, updated, s[key].version))[key].value == updated
  {
    var s: Store<V> := map[key := Entry(old_, 1)];
    var actions := [Action.Delete(key), Action.Put(key, new_)];
    assert actions[1..] == [actions[1]] && actions[1..][1..] == [];
    assert DoAll(s, actions) == DoAll(Do(Do(s, actions[0]), actions[1]), []);
    DoAllNext(s, actions, 0);
    assert key !in DoAll(s, actions[..1]);
  }

  // ---- AtomicUpdate ----

  datatype UpdateError<E> = NotFound | Rejected(error: E)

  /** What other clients do before the read of a turn, and between its read and its write. */
  datatype Turn<V> = Turn(beforeRead: seq<Action<V>>, beforeWrite: seq<Action<V>>)

  /** The store after the given turns, if none of them writes. */
  function AfterTurns<V>(s: Store<V>, turns: seq<Turn<V>>): Store<V> {
    if turns == [] then s else
      var last := turns[|turns| - 1];
      DoAll(DoAll(AfterTurns(s, turns[..|turns| - 1]), last.beforeRead), last.beforeWrite)
  }

  /** The store as turn `t` reads it; after the last given turn nobody interferes. */
  function AtRead<V>(s: Store<V>, turns: seq<Turn<V>>, t: nat): Store<V>
    requires t <= |turns|
  {
    if t == |turns| then AfterTurns(s, turns) else DoAll(AfterTurns(s, turns[..t]), turns[t].beforeRead)
  }

  /** The store as turn `t` is about to write it. */
  function AtWrite<V>(s: Store<V>, turns: seq<Turn<V>>, t: nat): Store<V>
    requires t <= |turns|
  {
    if t == |turns| then AfterTurns(s, turns) else DoAll(AtRead(s, turns, t), turns[t].beforeWrite)
  }

  /** The update as one indivisible step. */
  function Modified<V, E>(s: Store<V>, key: string, modifier: V -> Result<V, E>)
    : (Store<V>, Result<V, UpdateError<E>>)
  {
    if key !in s then (s, Err(NotFound)) else
      match modifier(s[key].value)
      case Ok(v) => (Write(s, key, v), Ok(v))
      case Err(e) => (s, Err(Rejected(e)))
  }

  /** The update stores what the modifier makes of the value, under a higher version, and touches nothing
    * else; without the key, or when the modifier refuses, it touches nothing and says why. */
  lemma UpdateMeans<V, E>(s: Store<V>, key: string, modifier: V -> Result<V, E>)
    ensures
      var (t, r) := Modified(s, key, modifier);
      && (r == Err(NotFound) <==> key !in s)
      && (forall e :: r == Err(Rejected(e)) <==> key in s && modifier(s[key].value) == Err(e))
      && (forall v :: r == Ok(v) <==> key in s && modifier(s[key].value) == Ok(v))
      && (if r.Ok? then key in t && t[key].value == r.value && t[key].version > s[key].version && t - {key} == s - {key}
          else t == s)
  {}

  function Lookup<V>(s: Store<V>, key: string): Option<Entry<V>> {
    if key in s then Some(s[key]) else None
  }

  lemma AfterTurnsNext<V>(s: Store<V>, turns: seq<Turn<V>>, t: nat)
    requires t < |turns|
    ensures AfterTurns(s, turns[..t + 1]) == AtWrite(s, turns, t)
  {
    assert turns[..t + 1][..t] == turns[..t];
  }

  lemma {:induction false} SoundTurns<V>(s: Store<V>, turns: seq<Turn<V>>)
    requires Sound(s)
    ensures Sound(AfterTurns(s, turns))
  {
    if turns != [] {
      var init, last := turns[..|turns| - 1], turns[|turns| - 1];
      SoundTurns(s, init);
      SoundAfter(AfterTurns(s, init), last.beforeRead);
      SoundAfter(DoAll(AfterTurns(s, init), last.beforeRead), last.beforeWrite);
    }
  }

  /** Whether the write of turn `t` succeeds tells whether the entry is still the one it read. */
  lemma TurnTells<V>(s: Store<V>, turns: seq<Turn<V>>, key: string, t: nat)
    requires Sound(s) && t < |turns| && key in AtRead(s, turns, t)
    requires !Confused(AtRead(s, turns, t), turns[t].beforeWrite, key)
    ensures var before, now := AtRead(s, turns, t), AtWrite(s, turns, t);
      Version(now, key) == before[key].version <==> Lookup(now, key) == Lookup(before, key)
  {
    SoundTurns(s, turns[..t]);
    SoundAfter(AfterTurns(s, turns[..t]), turns[t].beforeRead);
    SwapMeansUnchanged(AtRead(s, turns, t), turns[t].beforeWrite, key);
  }

  /** The registries' AtomicUpdate, against other clients that act before every read and between every
    * read and write.  Unless the key is confused between a read and its write, the whole call is the
    * indivisible update, made at its last turn, and every turn before found the key changed by
    * another client. */
  method AtomicUpdate<V(==), E>(storer: SimpleEtcd<V>, key: string, modifier: V -> Result<V, E>, turns: seq<Turn<V>>)
    returns (r: Result<V, UpdateError<E>>, retries: nat)
    requires Sound(storer.kvs)
    requires forall t :: 0 <= t < |turns| && key in AtRead(storer.kvs, turns, t) ==>
      !Confused(AtRead(storer.kvs, turns, t), turns[t].beforeWrite, key)
    modifies storer
    ensures retries <= |turns|
    ensures var before := old(storer.kvs);
      var s := if r.Ok? then AtWrite(before, turns, retries) else AtRead(before, turns, retries);
      (storer.kvs, r) == Modified(s, key, modifier)
    ensures forall t :: 0 <= t < retries ==>
      Lookup(AtWrite(old(storer.kvs), turns, t), key) != Lookup(AtRead(old(storer.kvs), turns, t), key)
  {
    hide DoAll, AfterTurns, Confused;
    retries := 0;
    ghost var start := storer.kvs;
    NoTurns(start, turns);
    while true
      invariant retries <= |turns| && storer.kvs == AfterTurns(start, turns[..retries])
      invariant forall t :: 0 <= t < retries ==>
        Lookup(AtWrite(start, turns, t), key) != Lookup(AtRead(start, turns, t), key)
      decreases |turns| - retries
    {
      if retries < |turns| {
        storer.Others(turns[retries].beforeRead);
      } else {
        assert turns[..retries] == turns;
      }
      assert storer.kvs == AtRead(start, turns, retries);
      var pair := storer.Get(key);
      if pair.Err? { return Err(NotFound), retries; }
      var updated := modifier(pair.value.value);
      if updated.Err? { return Err(Rejected(updated.error)), retries; }
      if retries < |turns| {
        TurnTells(start, turns, key, retries);
        AfterTurnsNext(start, turns, retries);
        storer.Others(turns[retries].beforeWrite);
      }
      assert storer.kvs == AtWrite(start, turns, retries);
      var failure := storer.AtomicPut(key, updated.value, pair.value.version);
      if failure == None { return Ok(updated.value), retries; }
      retries := retries + 1;
    }
  }

  lemma NoTurns<V>(s: Store<V>, turns: seq<Turn<V>>)
    ensures AfterTurns(s, turns[..0]) == s
  {}
}
