/**
 * The JDBC statement cache of the pool: a bounded, LRU-evicting map from
 * (raw connection, invoked method, arguments) to a holder of a prepared
 * statement, where every holder carries a three-valued lifecycle state.
 *
 * The concurrent linked hash map is modelled as a sequence of entries in
 * recency order: the head is the least recently used entry, the last one the
 * most recently used. Each compare-and-set on a holder's state is a
 * sequential check-and-set. Closing a JDBC statement is modelled by adding
 * it to the ghost set `closedStatements`.
 */
module StatementCache {
  import opened JavaLang

  /** Identity of a raw JDBC connection (compared with `==` in the source). */
  type ConnId = nat

  /** The cache key: the raw connection, the invoked method and its arguments. */
  datatype ConnMethod = ConnMethod(target: ConnId, methodName: string, args: seq<Value>)

  /** The lifecycle state of a cached statement. */
  datatype State = Available | InUse | Evicted

  /**
   * The state changes an entry may make: AVAILABLE to IN_USE (a take),
   * IN_USE to AVAILABLE (a restore), anything to EVICTED, and no change.
   * An uncached holder (no state) never gains one.
   */
  predicate Transition(before: Option<State>, after: Option<State>)
  {
    || before == after
    || (before == Some(Available) && after == Some(InUse))
    || (before == Some(InUse) && after == Some(Available))
    || (before.Some? && after == Some(Evicted))
  }

  /** EVICTED is a sink, and a holder without a state stays without one. */
  lemma EvictedIsSink(after: Option<State>)
    ensures Transition(Some(Evicted), after) ==> after == Some(Evicted)
    ensures Transition(None, after) ==> after == None
  {
  }

  /** Two allowed changes in a row make an allowed change. */
  lemma TransitionTransitive(a: Option<State>, b: Option<State>, c: Option<State>)
    requires Transition(a, b) && Transition(b, c)
    ensures Transition(a, c)
  {
  }

  lemma StateCases(s: Option<State>)
    ensures s == None || s == Some(Available) || s == Some(InUse) || s == Some(Evicted)
  {
    match s
    case None =>
    case Some(st) =>
      match st
      case Available =>
      case InUse =>
      case Evicted =>
  }

  /** A raw JDBC statement; only its identity matters to the cache. */
  class Statement {
    constructor ()
    {
    }
  }

  /**
   * A raw statement together with its state. A cached holder has a state; an
   * uncached one, handed out when the cache could not be used, has none.
   */
  class StatementHolder {
    const value: Statement
    var state: Option<State>

    constructor (value: Statement, state: Option<State>)
      ensures this.value == value && this.state == state
    {
      this.value := value;
      this.state := state;
    }

    /** `state().compareAndSet(expect, update)` */
    method CompareAndSet(expected: State, update: State) returns (ok: bool)
      requires state.Some?
      modifies this
      ensures ok <==> old(state) == Some(expected)
      ensures state == if ok then Some(update) else old(state)
    {
      ok := state == Some(expected);
      if ok {
        state := Some(update);
      }
    }

    /** `state().getAndSet(update)` */
    method GetAndSet(update: State) returns (previous: State)
      requires state.Some?
      modifies this
      ensures old(state) == Some(previous) && state == Some(update)
    {
      previous := state.value;
      state := Some(update);
    }

    /** `state().set(update)` */
    method Set(update: State)
      requires state.Some?
      modifies this
      ensures state == Some(update)
    {
      state := Some(update);
    }
  }

  /** One key/holder pair of the map. */
  datatype Entry = Entry(key: ConnMethod, holder: StatementHolder)

  /**
   * The invoker through which `take` creates a raw statement on a miss. What
   * the underlying driver does is given by `failure`: when it holds an
   * exception the call throws it, otherwise the call returns a new statement.
   */
  class StatementInvoker {
    var invocations: nat
    var failure: Option<Throwable>

    constructor (failure: Option<Throwable>)
      ensures invocations == 0 && this.failure == failure
    {
      invocations := 0;
      this.failure := failure;
    }

    method TargetInvoke(methodName: string, args: seq<Value>) returns (r: Outcome<Statement>)
      modifies this
      ensures invocations == old(invocations) + 1 && failure == old(failure)
      ensures r.Threw? <==> failure.Some?
      ensures r.Threw? ==> r.cause == failure.value
      ensures r.Returned? ==> fresh(r.value)
    {
      invocations := invocations + 1;
      if failure.Some? {
        r := Threw(failure.value);
      } else {
        var s := new Statement();
        r := Returned(s);
      }
    }
  }

  // ---------------------------------------------------------------------
  // The map as a sequence in recency order

  /** The position of `key` in the map, or -1 when it has no entry. */
  function IndexOf(es: seq<Entry>, key: ConnMethod): (i: int)
    ensures -1 <= i < |es|
    ensures 0 <= i ==> es[i].key == key
  {
    if es == [] then -1
    else if es[0].key == key then 0
    else
      var i := IndexOf(es[1..], key);
      if i == -1 then -1 else i + 1
  }

  /** `IndexOf` finds no position exactly when no entry has the key. */
  lemma {:induction false} IndexOfAbsent(es: seq<Entry>, key: ConnMethod)
    ensures IndexOf(es, key) == -1 <==> forall j :: 0 <= j < |es| ==> es[j].key != key
  {
    if es != [] && es[0].key != key {
      IndexOfAbsent(es[1..], key);
      if IndexOf(es, key) != -1 {
        assert es[IndexOf(es, key)].key == key;
      } else {
        forall j | 0 <= j < |es| ensures es[j].key != key {
          if j > 0 { assert es[1..][j - 1] == es[j]; }
        }
      }
    }
  }

  /** The position of the first entry whose raw statement is `raw`, or -1. */
  function RawIndex(es: seq<Entry>, raw: Statement): (i: int)
    ensures -1 <= i < |es|
    ensures 0 <= i ==> es[i].holder.value == raw
    ensures 0 <= i ==> forall j :: 0 <= j < i ==> es[j].holder.value != raw
    ensures i == -1 <==> forall j :: 0 <= j < |es| ==> es[j].holder.value != raw
  {
    if es == [] then -1
    else if es[0].holder.value == raw then 0
    else
      var i := RawIndex(es[1..], raw);
      if i == -1 then -1 else i + 1
  }

  function RemoveAt(es: seq<Entry>, i: nat): seq<Entry>
    requires i < |es|
  {
    es[..i] + es[i + 1..]
  }

  /** An access makes the entry at `i` the most recently used one. */
  function Touch(es: seq<Entry>, i: nat): seq<Entry>
    requires i < |es|
  {
    RemoveAt(es, i) + [es[i]]
  }

  /**
   * The map after inserting `e` for an absent key: appended as the most
   * recently used entry, the least recently used one evicted when the map
   * would otherwise exceed `maxSize`.
   */
  function Admit(es: seq<Entry>, e: Entry, maxSize: int): seq<Entry>
    requires es != [] || maxSize > 0
  {
    if |es| + 1 > maxSize then es[1..] + [e] else es + [e]
  }

  /** The map after removing the entry of statement `raw`, if any. */
  function WithoutRaw(es: seq<Entry>, raw: Statement): seq<Entry>
  {
    var i := RawIndex(es, raw);
    if i < 0 then es else RemoveAt(es, i)
  }

  /** The entries that do not belong to connection `conn`, in order. */
  function Survivors(es: seq<Entry>, conn: ConnId): seq<Entry>
  {
    if es == [] then []
    else
      var last := es[|es| - 1];
      Survivors(es[..|es| - 1], conn) + (if last.key.target == conn then [] else [last])
  }

  /** The entries that belong to connection `conn`, in order. */
  function Belonging(es: seq<Entry>, conn: ConnId): seq<Entry>
  {
    if es == [] then []
    else
      var last := es[|es| - 1];
      Belonging(es[..|es| - 1], conn) + (if last.key.target == conn then [last] else [])
  }

  /** The raw statements of some entries. */
  ghost function RawsOf(es: seq<Entry>): set<Statement>
  {
    if es == [] then {} else RawsOf(es[..|es| - 1]) + {es[|es| - 1].holder.value}
  }

  /** No key and no holder occurs twice. */
  ghost predicate Distinct(es: seq<Entry>)
  {
    forall i, j :: 0 <= i < j < |es| ==> es[i].key != es[j].key && es[i].holder != es[j].holder
  }

  lemma RemoveAtProps(es: seq<Entry>, i: nat)
    requires i < |es|
    ensures |RemoveAt(es, i)| == |es| - 1
    ensures forall a :: 0 <= a < i ==> RemoveAt(es, i)[a] == es[a]
    ensures forall a :: i <= a < |es| - 1 ==> RemoveAt(es, i)[a] == es[a + 1]
    ensures forall e :: e in RemoveAt(es, i) ==> e in es
    ensures Distinct(es) ==> Distinct(RemoveAt(es, i))
  {
    var r := RemoveAt(es, i);
    forall e | e in r ensures e in es {
      var a :| 0 <= a < |r| && r[a] == e;
      if a < i { assert es[a] == e; } else { assert es[a + 1] == e; }
    }
  }

  /** Touching an entry keeps the same entries, moves it last and keeps the others' order. */
  lemma {:induction false} TouchProps(es: seq<Entry>, i: nat)
    requires i < |es|
    ensures |Touch(es, i)| == |es| && Touch(es, i)[|es| - 1] == es[i]
    ensures Touch(es, i)[..|es| - 1] == RemoveAt(es, i)
    ensures forall e :: e in Touch(es, i) <==> e in es
    ensures Distinct(es) ==> Distinct(Touch(es, i))
  {
    RemoveAtProps(es, i);
    var r := RemoveAt(es, i);
    var t := Touch(es, i);
    assert t[..|es| - 1] == r;
    forall e | e in es ensures e in t {
      var a :| 0 <= a < |es| && es[a] == e;
      if a < i { assert r[a] == e; } else if a > i { assert r[a - 1] == e; } else { assert t[|es| - 1] == e; }
    }
    if Distinct(es) {
      forall a, b | 0 <= a < b < |t| ensures t[a].key != t[b].key && t[a].holder != t[b].holder {
        var a' := if a < i then a else a + 1;
        assert t[a] == es[a'];
        if b < |t| - 1 {
          var b' := if b < i then b else b + 1;
          assert t[b] == es[b'];
        } else {
          assert t[b] == es[i];
        }
      }
    }
  }

  /** Admitting an entry for an absent key keeps the keys distinct and the size bound. */
  lemma AdmitProps(es: seq<Entry>, e: Entry, maxSize: int)
    requires 0 < maxSize && |es| <= maxSize && Distinct(es)
    requires forall x :: x in es ==> x.key != e.key && x.holder != e.holder
    ensures |Admit(es, e, maxSize)| <= maxSize && Distinct(Admit(es, e, maxSize))
    ensures forall x :: x in Admit(es, e, maxSize) ==> x == e || x in es
    ensures e in Admit(es, e, maxSize)
  {
    var r := Admit(es, e, maxSize);
    if |es| + 1 > maxSize {
      assert es[1..] + [e] == r;
      forall a, b | 0 <= a < b < |r| ensures r[a].key != r[b].key && r[a].holder != r[b].holder {
        assert r[a] == es[a + 1];
        if b < |r| - 1 { assert r[b] == es[b + 1]; } else { assert es[a + 1] in es; }
      }
      forall x | x in r ensures x == e || x in es {
        if x != e { assert x in es[1..]; }
      }
    } else {
      forall a, b | 0 <= a < b < |r| ensures r[a].key != r[b].key && r[a].holder != r[b].holder {
        if b == |es| { assert es[a] in es; }
      }
    }
    assert r[|r| - 1] == e;
  }

  /** Without the entry of `raw`, no remaining entry has that statement. */
  lemma WithoutRawProps(es: seq<Entry>, raw: Statement)
    requires Distinct(es)
    requires forall a, b :: 0 <= a < b < |es| ==> es[a].holder.value != es[b].holder.value
    ensures Distinct(WithoutRaw(es, raw))
    ensures forall e :: e in WithoutRaw(es, raw) ==> e in es && e.holder.value != raw
    ensures RawIndex(es, raw) < 0 ==> WithoutRaw(es, raw) == es
    ensures RawIndex(es, raw) >= 0 ==> |WithoutRaw(es, raw)| == |es| - 1
  {
    var i := RawIndex(es, raw);
    if i >= 0 {
      RemoveAtProps(es, i);
      var r := RemoveAt(es, i);
      forall e | e in r ensures e.holder.value != raw {
        var a :| 0 <= a < |r| && r[a] == e;
        if a < i { assert es[a] == e; } else { assert es[a + 1] == e; }
      }
    }
  }

  /**
   * `removeAll` splits the map: the survivors are the entries of other
   * connections, the removed ones exactly those of `conn`, and together
   * they account for every entry.
   */
  lemma {:induction false} PartitionByConnection(es: seq<Entry>, conn: ConnId)
    ensures |Survivors(es, conn)| + |Belonging(es, conn)| == |es|
    ensures forall e :: e in Survivors(es, conn) <==> e in es && e.key.target != conn
    ensures forall e :: e in Belonging(es, conn) <==> e in es && e.key.target == conn
  {
    if es != [] {
      var init := es[..|es| - 1];
      PartitionByConnection(init, conn);
      assert es == init + [es[|es| - 1]];
    }
  }

  /** `PartitionByConnection` for one given entry. */
  lemma EntryGoesOneWay(es: seq<Entry>, conn: ConnId, e: Entry)
    ensures e in Survivors(es, conn) <==> e in es && e.key.target != conn
    ensures e in Belonging(es, conn) <==> e in es && e.key.target == conn
  {
    PartitionByConnection(es, conn);
  }

  /** An entry of another connection is never removed, and removes nothing when none match. */
  lemma {:induction false} SurvivorsOfUntouched(es: seq<Entry>, conn: ConnId)
    requires forall e :: e in es ==> e.key.target != conn
    ensures Survivors(es, conn) == es && Belonging(es, conn) == []
  {
    if es != [] {
      var init := es[..|es| - 1];
      assert es == init + [es[|es| - 1]];
      SurvivorsOfUntouched(init, conn);
    }
  }

  lemma {:induction false} RawsOfMembers(es: seq<Entry>)
    ensures forall s :: s in RawsOf(es) <==> exists e :: e in es && e.holder.value == s
  {
    if es != [] {
      var init := es[..|es| - 1];
      RawsOfMembers(init);
      assert es == init + [es[|es| - 1]];
    }
  }

  lemma RawsOfAppend(es: seq<Entry>, e: Entry)
    ensures RawsOf(es + [e]) == RawsOf(es) + {e.holder.value}
  {
    assert (es + [e])[..|es|] == es;
  }

  /** The loop invariant of `removeAll` carries over one more entry, whether it is removed or stepped over. */
  lemma RemoveAllStep(all: seq<Entry>, k: nat, conn: ConnId, es: seq<Entry>, j: nat)
    requires k < |all| && es == Survivors(all[..k], conn) + all[k..] && j == |Survivors(all[..k], conn)|
    ensures j < |es| && es[j] == all[k]
    ensures all[k].key.target == conn ==>
      && RemoveAt(es, j) == Survivors(all[..k + 1], conn) + all[k + 1..]
      && j == |Survivors(all[..k + 1], conn)|
      && Belonging(all[..k + 1], conn) == Belonging(all[..k], conn) + [all[k]]
      && RawsOf(Belonging(all[..k + 1], conn)) == RawsOf(Belonging(all[..k], conn)) + {all[k].holder.value}
    ensures all[k].key.target != conn ==>
      && es == Survivors(all[..k + 1], conn) + all[k + 1..]
      && j + 1 == |Survivors(all[..k + 1], conn)|
      && Belonging(all[..k + 1], conn) == Belonging(all[..k], conn)
  {
    var e := all[k];
    assert all[..k + 1][..k] == all[..k];
    assert all[..k + 1][k] == e;
    if e.key.target == conn {
      RawsOfAppend(Belonging(all[..k], conn), e);
      assert es[..j] == Survivors(all[..k], conn);
      assert es[j + 1..] == all[k + 1..];
    } else {
      assert Survivors(all[..k + 1], conn) == Survivors(all[..k], conn) + [e];
      assert all[k..] == [e] + all[k + 1..];
    }
  }

  /** Removing entries keeps the rest free of duplicate keys and holders. */
  lemma {:induction false} SurvivorsStayDistinct(es: seq<Entry>, conn: ConnId)
    requires Distinct(es)
    ensures Distinct(Survivors(es, conn))
  {
    if es != [] {
      var init := es[..|es| - 1];
      var last := es[|es| - 1];
      assert Distinct(init) by {
        forall i, j | 0 <= i < j < |init| ensures init[i].key != init[j].key && init[i].holder != init[j].holder {
          assert init[i] == es[i] && init[j] == es[j];
        }
      }
      SurvivorsStayDistinct(init, conn);
      PartitionByConnection(init, conn);
      if last.key.target != conn {
        var s := Survivors(init, conn);
        assert Survivors(es, conn) == s + [last];
        forall i | 0 <= i < |s| ensures s[i].key != last.key && s[i].holder != last.holder {
          EntryGoesOneWay(init, conn, s[i]);
          var a :| 0 <= a < |init| && init[a] == s[i];
          assert es[a] == s[i];
        }
      }
    }
  }

  /** No survivor of `removeAll` shares its raw statement with a removed entry. */
  lemma SurvivorsKeepTheirStatements(es: seq<Entry>, conn: ConnId)
    requires forall a, b :: 0 <= a < b < |es| ==> es[a].holder.value != es[b].holder.value
    ensures forall e :: e in Survivors(es, conn) ==> e.holder.value !in RawsOf(Belonging(es, conn))
  {
    RawsOfMembers(Belonging(es, conn));
    forall e | e in Survivors(es, conn) ensures e.holder.value !in RawsOf(Belonging(es, conn)) {
      EntryGoesOneWay(es, conn, e);
      var i :| 0 <= i < |es| && es[i] == e;
      forall b | b in Belonging(es, conn) ensures b.holder.value != e.holder.value {
        EntryGoesOneWay(es, conn, b);
        var j :| 0 <= j < |es| && es[j] == b;
        assert i != j;
      }
    }
  }

  /**
   * The iteration of `removeAll`: walks the entries in order, removing each
   * one of `conn` (its statement is closed) and stepping over the others.
   */
  method SplitByConnection(entries: seq<Entry>, conn: ConnId)
    returns (kept: seq<Entry>, ghost closed: set<Statement>, removed: int)
    ensures kept == Survivors(entries, conn)
    ensures closed == RawsOf(Belonging(entries, conn))
    ensures removed == |Belonging(entries, conn)|
  {
    kept := entries;
    closed := {};
    removed := 0;
    var j := 0;
    ghost var k := 0;
    assert entries[..0] == [];
    while j < |kept|
      invariant 0 <= k <= |entries|
      invariant kept == Survivors(entries[..k], conn) + entries[k..]
      invariant j == |Survivors(entries[..k], conn)|
      invariant closed == RawsOf(Belonging(entries[..k], conn))
      invariant removed == |Belonging(entries[..k], conn)|
      decreases |kept| - j
    {
      RemoveAllStep(entries, k, conn, kept, j);
      var e := kept[j];
      if e.key.target == conn {
        closed := closed + {e.holder.value};
        kept := RemoveAt(kept, j);
        removed := removed + 1;
      } else {
        j := j + 1;
      }
      k := k + 1;
    }
    assert entries[..k] == entries;
  }

  /** One more entry of a prefix adds its statement to the statements of the prefix. */
  lemma RawsOfPrefix(es: seq<Entry>, k: nat)
    requires k < |es|
    ensures RawsOf(es[..k + 1]) == RawsOf(es[..k]) + {es[k].holder.value}
  {
    assert es[..k + 1][..k] == es[..k];
  }

  // ---------------------------------------------------------------------
  // The cache

  class ClhmStatementCache {
    const maxSize: int
    /** The map, least recently used entry first. */
    var entries: seq<Entry>
    /** The `closed` flag. */
    var closed: bool
    /** The raw statements this cache has closed. */
    ghost var closedStatements: set<Statement>
    /** Every cached holder this cache has created. */
    ghost var issued: set<StatementHolder>
    /** The holder of this cache that holds each of its statements. */
    ghost var owner: map<Statement, StatementHolder>

    /**
     * The invariant: the map holds at most `maxSize` entries with distinct
     * keys; it is empty once closed; every entry is a holder of this cache
     * that is AVAILABLE or IN_USE and whose statement is open; distinct
     * holders of this cache hold distinct statements.
     */
    ghost predicate Valid()
      reads this, issued
    {
      && 0 < maxSize
      && |entries| <= maxSize
      && (closed ==> entries == [])
      && Distinct(entries)
      && (forall h :: h in issued ==> h.state.Some?)
      && (forall h :: h in issued ==> h.value in owner && owner[h.value] == h)
      && (forall e :: e in entries ==>
            e.holder in issued && e.holder.state != Some(Evicted) && e.holder.value !in closedStatements)
    }

    lemma RawsDistinct()
      requires Valid()
      ensures forall a, b :: 0 <= a < b < |entries| ==> entries[a].holder.value != entries[b].holder.value
    {
      forall a, b | 0 <= a < b < |entries| ensures entries[a].holder.value != entries[b].holder.value {
        assert entries[a] in entries && entries[b] in entries;
      }
    }

    constructor (maxSize: int)
      requires 0 < maxSize
      ensures Valid() && this.maxSize == maxSize
      ensures entries == [] && !closed && closedStatements == {} && issued == {}
    {
      this.maxSize := maxSize;
      entries := [];
      closed := false;
      closedStatements := {};
      issued := {};
      owner := map[];
    }

    /** `new ClhmStatementCache(maxSize)`: refused with IllegalArgumentException when `maxSize <= 0`. */
    static method Create(maxSize: int) returns (r: Outcome<ClhmStatementCache>)
      ensures r.Threw? <==> maxSize <= 0
      ensures r.Threw? ==> r.cause == IllegalArgumentException
      ensures r.Returned? ==> fresh(r.value) && r.value.Valid() && r.value.maxSize == maxSize
      ensures r.Returned? ==> r.value.entries == [] && !r.value.closed && r.value.closedStatements == {}
    {
      if maxSize <= 0 {
        return Threw(IllegalArgumentException);
      }
      var c := new ClhmStatementCache(maxSize);
      return Returned(c);
    }

    method IsClosed() returns (r: bool)
      ensures r == closed
    {
      r := closed;
    }

    /**
     * The eviction listener: the victim becomes EVICTED; its statement is
     * closed only if it was AVAILABLE, an IN_USE victim is left to the
     * holder that restores it.
     */
    method OnEviction(victim: Entry)
      requires victim.holder.state.Some?
      modifies this`closedStatements, victim.holder
      ensures victim.holder.state == Some(Evicted)
      ensures closedStatements ==
        old(closedStatements) + (if old(victim.holder.state) == Some(Available) then {victim.holder.value} else {})
      ensures forall h :: h in old(issued) ==> Transition(old(h.state), h.state)
    {
      var previous := victim.holder.GetAndSet(Evicted);
      if previous == Available {
        closedStatements := closedStatements + {victim.holder.value};
      }
    }

    /** `statementCache.get(key)`: a hit also makes the entry the most recently used. */
    method Get(key: ConnMethod) returns (h: StatementHolder?)
      requires Valid()
      modifies this`entries
      ensures Valid()
      ensures h != null ==> h in issued
      ensures var i := IndexOf(old(entries), key);
        && (i < 0 ==> h == null && entries == old(entries))
        && (i >= 0 ==> h == old(entries)[i].holder && entries == Touch(old(entries), i))
    {
      var i := IndexOf(entries, key);
      if i < 0 {
        return null;
      }
      TouchProps(entries, i);
      h := entries[i].holder;
      entries := Touch(entries, i);
    }

    /** The holder an insertion for `key` would evict: the eldest one, when the key is absent and the map full. */
    ghost function EvictionVictim(key: ConnMethod): set<StatementHolder>
      reads this
    {
      if IndexOf(entries, key) < 0 && |entries| == maxSize && entries != [] then {entries[0].holder} else {}
    }

    /** The holders a `take` of `key` may change: the entry found for it, or the eviction victim. */
    ghost function TakeFootprint(key: ConnMethod): set<StatementHolder>
      reads this
    {
      if closed then {}
      else if IndexOf(entries, key) >= 0 then {entries[IndexOf(entries, key)].holder}
      else EvictionVictim(key)
    }

    /**
     * `statementCache.putIfAbsent(key, h)`: first writer wins. When the key
     * already has an entry that entry is returned (and touched) and `h` is
     * not installed; otherwise `h` is installed as the most recently used
     * entry, evicting the least recently used one if the map was full.
     */
    method PutIfAbsent(key: ConnMethod, h: StatementHolder) returns (previous: StatementHolder?)
      requires Valid() && !closed
      requires h in issued && h.state == Some(InUse) && h.value !in closedStatements
      requires forall e :: e in entries ==> e.holder != h
      modifies this`entries, this`closedStatements, EvictionVictim(key)
      ensures Valid()
      ensures var i := IndexOf(old(entries), key);
        && (i >= 0 ==> previous == old(entries)[i].holder && entries == Touch(old(entries), i)
                        && closedStatements == old(closedStatements))
        && (i < 0 ==> previous == null && entries == Admit(old(entries), Entry(key, h), maxSize))
      ensures IndexOf(old(entries), key) < 0 && |old(entries)| < maxSize ==>
        closedStatements == old(closedStatements)
      ensures IndexOf(old(entries), key) < 0 && |old(entries)| == maxSize ==>
        var victim := old(entries)[0].holder;
        && victim.state == Some(Evicted)
        && closedStatements == old(closedStatements) + (if old(victim.state) == Some(Available) then {victim.value} else {})
      ensures forall h :: h in old(issued) ==> Transition(old(h.state), h.state)
    {
      // a present key is read, which touches its entry
      previous := Get(key);
      if previous != null {
        return;
      }
      Insert(Entry(key, h));
    }

    /**
     * The insertion of `putIfAbsent` for a key found absent: the new entry
     * becomes the most recently used one. The map evicts its eldest entry
     * once the insertion makes it exceed maxSize; evicting first and then
     * appending reaches the same state.
     */
    method Insert(e: Entry)
      requires Valid() && !closed && IndexOf(entries, e.key) < 0
      requires e.holder in issued && e.holder.state == Some(InUse) && e.holder.value !in closedStatements
      requires forall x :: x in entries ==> x.holder != e.holder
      modifies this`entries, this`closedStatements, EvictionVictim(e.key)
      ensures Valid()
      ensures entries == Admit(old(entries), e, maxSize)
      ensures |old(entries)| < maxSize ==> closedStatements == old(closedStatements)
      ensures |old(entries)| == maxSize ==>
        var victim := old(entries)[0].holder;
        && victim.state == Some(Evicted)
        && closedStatements == old(closedStatements) + (if old(victim.state) == Some(Available) then {victim.value} else {})
      ensures forall h :: h in old(issued) ==> Transition(old(h.state), h.state)
    {
      IndexOfAbsent(entries, e.key);
      if |entries| == maxSize {
        var victim := entries[0].holder;
        assert entries[0] in entries;
        assert victim != e.holder && owner[victim.value] == victim && owner[e.holder.value] == e.holder;
        EvictEldest();
        assert entries == old(entries)[1..] && e.holder.value !in closedStatements;
      }
      Append(e);
    }

    /** The map drops its least recently used entry and runs the eviction listener on it. */
    method EvictEldest()
      requires Valid() && entries != []
      modifies this`entries, this`closedStatements, entries[0].holder
      ensures Valid()
      ensures entries == old(entries)[1..]
      ensures old(entries)[0].holder.state == Some(Evicted)
      ensures closedStatements == old(closedStatements) +
        (if old(entries[0].holder.state) == Some(Available) then {old(entries)[0].holder.value} else {})
      ensures forall h :: h in old(issued) ==> Transition(old(h.state), h.state)
    {
      var victim := entries[0];
      assert victim in entries;
      RawsDistinct();
      entries := entries[1..];
      assert forall x :: x in entries ==> x.holder != victim.holder && x.holder.value != victim.holder.value by {
        forall x | x in entries ensures x.holder != victim.holder && x.holder.value != victim.holder.value {
          var a :| 0 <= a < |entries| && entries[a] == x;
          assert old(entries)[a + 1] == x;
        }
      }
      OnEviction(victim);
    }

    /** The map appends an entry for an absent key as its most recently used one. */
    method Append(e: Entry)
      requires Valid() && !closed && |entries| < maxSize
      requires e.holder in issued && e.holder.state == Some(InUse) && e.holder.value !in closedStatements
      requires forall x :: x in entries ==> x.key != e.key && x.holder != e.holder
      modifies this`entries
      ensures Valid() && entries == old(entries) + [e]
    {
      AdmitProps(entries, e, maxSize);
      entries := entries + [e];
    }

    /**
     * `take(key, invoker)`. A closed cache gives null. An AVAILABLE entry
     * for the key becomes IN_USE and is returned without invoking the target.
     * Otherwise the target is invoked once; with no entry for the key the new
     * statement is installed as an IN_USE entry, and with an entry that is
     * not AVAILABLE it is handed out uncached (no state) and the map keeps
     * its entries. An exception of the target is rethrown.
     */
    method Take(key: ConnMethod, invoker: StatementInvoker) returns (r: Outcome<StatementHolder?>)
      requires Valid()
      modifies this`entries, this`closedStatements, this`issued, this`owner, invoker, TakeFootprint(key)
      ensures invoker.failure == old(invoker.failure)
      // a closed cache: nothing happens
      ensures old(closed) ==>
        && r == Returned(null) && entries == old(entries) && closedStatements == old(closedStatements)
        && invoker.invocations == old(invoker.invocations)
      // a hit: the AVAILABLE entry becomes IN_USE, the target is not invoked
      ensures var i := IndexOf(old(entries), key);
        !old(closed) && i >= 0 && old(entries[i].holder.state) == Some(Available) ==>
        && r == Returned(old(entries)[i].holder) && old(entries)[i].holder.state == Some(InUse)
        && entries == Touch(old(entries), i) && closedStatements == old(closedStatements)
        && invoker.invocations == old(invoker.invocations)
      // an entry that is not AVAILABLE: it keeps its state, the statement is handed out uncached
      ensures var i := IndexOf(old(entries), key);
        !old(closed) && i >= 0 && old(entries[i].holder.state) != Some(Available) ==>
        && invoker.invocations == old(invoker.invocations) + 1
        && old(entries)[i].holder.state == old(entries[i].holder.state)
        && entries == Touch(old(entries), i) && closedStatements == old(closedStatements)
        && (invoker.failure.Some? ==> r == Threw(invoker.failure.value))
        && (invoker.failure.None? ==>
              r.Returned? && r.value != null && fresh(r.value) && fresh(r.value.value) && r.value.state == None)
      // a miss: the new statement is installed IN_USE, possibly evicting the LRU entry
      ensures IndexOf(old(entries), key) < 0 && !old(closed) ==>
        && invoker.invocations == old(invoker.invocations) + 1
        && (invoker.failure.Some? ==>
              r == Threw(invoker.failure.value) && entries == old(entries) && closedStatements == old(closedStatements))
        && (invoker.failure.None? ==>
              && r.Returned? && r.value != null && fresh(r.value) && fresh(r.value.value)
              && r.value.state == Some(InUse)
              && entries == Admit(old(entries), Entry(key, r.value), maxSize))
      ensures IndexOf(old(entries), key) < 0 && !old(closed) && invoker.failure.None? && |old(entries)| < maxSize ==>
        closedStatements == old(closedStatements)
      ensures IndexOf(old(entries), key) < 0 && !old(closed) && invoker.failure.None? && |old(entries)| == maxSize ==>
        var victim := old(entries)[0].holder;
        && victim.state == Some(Evicted)
        && closedStatements == old(closedStatements) + (if old(victim.state) == Some(Available) then {victim.value} else {})
      ensures old(issued) <= issued
      ensures forall h :: h in old(issued) ==> Transition(old(h.state), h.state)
      ensures Valid()
    {
      if closed {
        return Returned(null);
      }
      var statement, ok := TakeCached(key);
      label looked:
      assert issued == old(issued);
      if ok {
        return Returned(statement);
      }
      r := CreateStatement(key, invoker, statement);
      forall g | g in old(issued)
        ensures Transition(old(g.state), g.state)
      {
        TransitionTransitive(old(g.state), old@looked(g.state), g.state);
      }
    }

    /** The holder `take` finds for `key`, when there is one. */
    ghost function Found(key: ConnMethod): set<StatementHolder>
      reads this
    {
      if IndexOf(entries, key) >= 0 then {entries[IndexOf(entries, key)].holder} else {}
    }

    /**
     * The lookup at the start of `take` on an open cache: `get(key)`, and
     * `compareAndSet(AVAILABLE, IN_USE)` on the state of the entry found.
     */
    method TakeCached(key: ConnMethod) returns (statement: StatementHolder?, ok: bool)
      requires Valid() && !closed
      modifies this`entries, Found(key)
      ensures Valid()
      ensures closed == old(closed) && closedStatements == old(closedStatements)
      ensures forall h :: h in old(issued) ==> Transition(old(h.state), h.state)
      ensures var i := IndexOf(old(entries), key);
        && (i < 0 ==> statement == null && !ok && entries == old(entries))
        && (i >= 0 ==>
              && statement == old(entries)[i].holder && statement in issued
              && entries == Touch(old(entries), i)
              && (ok <==> old(statement.state) == Some(Available))
              && statement.state == (if ok then Some(InUse) else old(statement.state)))
    {
      statement := Get(key);
      if statement == null {
        return null, false;
      }
      label got:
      ok := Acquire(statement);
      forall g | g in old(issued)
        ensures Transition(old(g.state), g.state)
      {
        if g != statement {
          assert g.state == old@got(g.state);
        }
      }
    }

    /**
     * The rest of `take` once the map cannot serve the key: the target is
     * invoked; with no entry (`statement == null`) the new statement is
     * installed, otherwise it is handed out uncached.
     */
    method CreateStatement(key: ConnMethod, invoker: StatementInvoker, statement: StatementHolder?)
      returns (r: Outcome<StatementHolder?>)
      requires Valid() && !closed
      requires statement == null ==> IndexOf(entries, key) < 0
      requires statement != null ==> statement in issued && statement.state != Some(Available)
      modifies this`entries, this`closedStatements, this`issued, this`owner, invoker
      modifies if statement == null then EvictionVictim(key) else {}
      ensures Valid()
      ensures invoker.failure == old(invoker.failure) && invoker.invocations == old(invoker.invocations) + 1
      ensures invoker.failure.Some? ==>
        r == Threw(invoker.failure.value) && entries == old(entries) && closedStatements == old(closedStatements)
      ensures statement != null ==>
        && entries == old(entries) && closedStatements == old(closedStatements) && statement.state == old(statement.state)
        && (invoker.failure.None? ==>
              r.Returned? && r.value != null && fresh(r.value) && fresh(r.value.value) && r.value.state == None)
      ensures statement == null && invoker.failure.None? ==>
        && r.Returned? && r.value != null && fresh(r.value) && fresh(r.value.value)
        && r.value.state == Some(InUse)
        && entries == Admit(old(entries), Entry(key, r.value), maxSize)
      ensures statement == null && invoker.failure.None? && |old(entries)| < maxSize ==>
        closedStatements == old(closedStatements)
      ensures statement == null && invoker.failure.None? && |old(entries)| == maxSize ==>
        var victim := old(entries)[0].holder;
        && victim.state == Some(Evicted)
        && closedStatements == old(closedStatements) + (if old(victim.state) == Some(Available) then {victim.value} else {})
      ensures old(issued) <= issued
      ensures forall h :: h in old(issued) ==> Transition(old(h.state), h.state)
    {
      var created := invoker.TargetInvoke(key.methodName, key.args);
      if created.Threw? {
        return Threw(created.cause);
      }
      var raw := created.value;
      if statement == null {
        // there was no entry for the key: try to install a new one
        var cached, previous := Install(key, raw);
        if previous == null {
          return Returned(cached);
        }
      }
      var uncached := new StatementHolder(raw, None);
      return Returned(uncached);
    }

    /**
     * The miss path of `take`: a new IN_USE holder of the statement just
     * created is offered to `putIfAbsent`, which installs it since the key
     * has no entry.
     */
    method Install(key: ConnMethod, raw: Statement) returns (h: StatementHolder, previous: StatementHolder?)
      requires Valid() && !closed && IndexOf(entries, key) < 0
      requires raw !in owner && raw !in closedStatements
      modifies this`entries, this`closedStatements, this`issued, this`owner, EvictionVictim(key)
      ensures Valid() && previous == null
      ensures fresh(h) && h.value == raw && h.state == Some(InUse)
      ensures entries == Admit(old(entries), Entry(key, h), maxSize)
      ensures |old(entries)| < maxSize ==> closedStatements == old(closedStatements)
      ensures |old(entries)| == maxSize ==>
        var victim := old(entries)[0].holder;
        && victim.state == Some(Evicted)
        && closedStatements == old(closedStatements) + (if old(victim.state) == Some(Available) then {victim.value} else {})
      ensures issued == old(issued) + {h}
      ensures forall h :: h in old(issued) ==> Transition(old(h.state), h.state)
    {
      h := NewCachedHolder(raw);
      previous := PutIfAbsent(key, h);
    }

    /** `compareAndSet(AVAILABLE, IN_USE)` on the state of an entry found in the map. */
    method Acquire(h: StatementHolder) returns (ok: bool)
      requires Valid() && h in issued
      modifies h
      ensures Valid()
      ensures entries == old(entries) && closed == old(closed) && closedStatements == old(closedStatements)
      ensures issued == old(issued) && owner == old(owner)
      ensures ok <==> old(h.state) == Some(Available)
      ensures h.state == if ok then Some(InUse) else old(h.state)
      ensures Transition(old(h.state), h.state)
    {
      ok := h.CompareAndSet(Available, InUse);
    }

    /** `new StatementHolder(rawStatement, new AtomicReference<>(IN_USE))` for a statement just created. */
    method NewCachedHolder(raw: Statement) returns (h: StatementHolder)
      requires Valid() && raw !in owner && raw !in closedStatements
      modifies this`issued, this`owner
      ensures Valid() && fresh(h) && h.value == raw && h.state == Some(InUse)
      ensures h in issued && forall e :: e in entries ==> e.holder != h
      ensures issued == old(issued) + {h}
    {
      h := new StatementHolder(raw, Some(InUse));
      issued := issued + {h};
      owner := owner[raw := h];
    }

    /**
     * `remove(rawStatement)`: deletes the entry whose statement is
     * `rawStatement` (compared by identity) and says whether there was one.
     */
    method Remove(rawStatement: Statement) returns (removed: bool)
      requires Valid()
      modifies this`entries
      ensures Valid()
      ensures removed <==> exists e :: e in old(entries) && e.holder.value == rawStatement
      ensures entries == WithoutRaw(old(entries), rawStatement)
      ensures |entries| == if removed then |old(entries)| - 1 else |old(entries)|
      ensures forall e :: e in entries ==> e.holder.value != rawStatement
    {
      RawsDistinct();
      WithoutRawProps(entries, rawStatement);
      var i := 0;
      while i < |entries|
        invariant 0 <= i <= |entries| && entries == old(entries)
        invariant forall j :: 0 <= j < i ==> entries[j].holder.value != rawStatement
      {
        if entries[i].holder.value == rawStatement {
          assert RawIndex(entries, rawStatement) == i;
          entries := RemoveAt(entries, i);
          return true;
        }
        i := i + 1;
      }
      removed := false;
    }

    /**
     * `restore(statement, clearWarnings)`. An uncached holder is left alone.
     * If the cache is closed or clearing the warnings fails, the entry leaves
     * the map, its statement is closed and it ends EVICTED. Otherwise an
     * IN_USE holder becomes AVAILABLE, and one EVICTED while in use has its
     * statement closed. `clearWarningsFails` is the outcome of the JDBC call.
     */
    method Restore(statement: StatementHolder, clearWarnings: bool, clearWarningsFails: bool)
      requires Valid()
      requires statement.state.Some? ==> statement in issued
      requires statement.state != Some(Available)
      modifies this`entries, this`closedStatements, statement
      ensures Valid()
      ensures old(statement.state) == None ==>
        entries == old(entries) && closedStatements == old(closedStatements) && statement.state == None
      ensures old(statement.state).Some? && (old(closed) || (clearWarnings && clearWarningsFails)) ==>
        && statement.state == Some(Evicted)
        && entries == WithoutRaw(old(entries), statement.value)
        && closedStatements == old(closedStatements) + {statement.value}
      ensures !old(closed) && !(clearWarnings && clearWarningsFails) && old(statement.state) == Some(InUse) ==>
        statement.state == Some(Available) && entries == old(entries) && closedStatements == old(closedStatements)
      ensures !old(closed) && !(clearWarnings && clearWarningsFails) && old(statement.state) == Some(Evicted) ==>
        && statement.state == Some(Evicted) && entries == old(entries)
        && closedStatements == old(closedStatements) + {statement.value}
      ensures Transition(old(statement.state), statement.state)
    {
      if statement.state == None {
        return;
      }
      var isClosed := IsClosed();
      if isClosed {
        var _ := Remove(statement.value);
        MarkEvicted(statement);
      }
      var rawStatement := statement.value;
      if clearWarnings && clearWarningsFails {
        // the SQLException handler
        var _ := Remove(rawStatement);
        closedStatements := closedStatements + {rawStatement};
        MarkEvicted(statement);
        return;
      }
      StateCases(statement.state);
      var ok := Release(statement);
      if !ok {
        CloseEvicted(statement);
      }
    }

    /** `state().set(EVICTED)` on a holder whose statement no entry holds any more. */
    method MarkEvicted(h: StatementHolder)
      requires Valid() && h in issued
      requires forall e :: e in entries ==> e.holder.value != h.value
      modifies h
      ensures Valid() && h.state == Some(Evicted)
      ensures entries == old(entries) && closed == old(closed) && closedStatements == old(closedStatements)
    {
      assert forall e :: e in entries ==> e.holder != h;
      h.Set(Evicted);
    }

    /** `compareAndSet(IN_USE, AVAILABLE)` on the state of a holder of this cache. */
    method Release(h: StatementHolder) returns (ok: bool)
      requires Valid() && h in issued
      modifies h
      ensures Valid()
      ensures entries == old(entries) && closed == old(closed) && closedStatements == old(closedStatements)
      ensures ok <==> old(h.state) == Some(InUse)
      ensures h.state == if ok then Some(Available) else old(h.state)
    {
      ok := h.CompareAndSet(InUse, Available);
    }

    /** A holder of this cache that is EVICTED shares no entry's statement. */
    lemma EvictedMeansNotCached(h: StatementHolder)
      requires Valid() && h in issued
      ensures h.state == Some(Evicted) ==> forall e :: e in entries ==> e.holder.value != h.value
    {
    }

    /** `quietClose` of the statement of a holder evicted while it was in use. */
    method CloseEvicted(h: StatementHolder)
      requires Valid() && h in issued && h.state == Some(Evicted)
      modifies this`closedStatements
      ensures Valid() && closedStatements == old(closedStatements) + {h.value}
    {
      EvictedMeansNotCached(h);
      closedStatements := closedStatements + {h.value};
    }

    /**
     * `removeAll(rawConnection)`: removes and closes exactly the entries of
     * `conn`, keeps every other entry in its place, and returns how many
     * were removed.
     */
    method RemoveAll(conn: ConnId) returns (removed: int)
      requires Valid()
      modifies this`entries, this`closedStatements
      ensures Valid()
      ensures entries == Survivors(old(entries), conn)
      ensures closedStatements == old(closedStatements) + RawsOf(Belonging(old(entries), conn))
      ensures removed == |Belonging(old(entries), conn)| == |old(entries)| - |entries|
    {
      PartitionByConnection(entries, conn);
      RawsDistinct();
      SurvivorsStayDistinct(entries, conn);
      SurvivorsKeepTheirStatements(entries, conn);
      var kept; ghost var closedNow;
      kept, closedNow, removed := SplitByConnection(entries, conn);
      ghost var before := entries;
      entries := kept;
      closedStatements := closedStatements + closedNow;
      forall e | e in entries
        ensures e.holder in issued && e.holder.state != Some(Evicted) && e.holder.value !in closedStatements
      {
        EntryGoesOneWay(before, conn, e);
      }
    }

    /** `close()`: the first call empties the map and closes every statement in it; later calls do nothing. */
    method Close()
      requires Valid()
      modifies this`closed, this`entries, this`closedStatements
      ensures Valid() && closed
      ensures old(closed) ==> entries == old(entries) && closedStatements == old(closedStatements)
      ensures !old(closed) ==> entries == [] && closedStatements == old(closedStatements) + RawsOf(old(entries))
    {
      var wasClosed := closed;
      closed := true;
      if wasClosed {
        return;
      }
      CloseEntries();
    }

    /** The loop of `close`: every entry is removed and its statement closed. */
    method CloseEntries()
      modifies this`entries, this`closedStatements
      ensures entries == [] && closedStatements == old(closedStatements) + RawsOf(old(entries))
    {
      ghost var all := entries;
      var k := 0;
      while entries != []
        invariant 0 <= k <= |all| && entries == all[k..]
        invariant closedStatements == old(closedStatements) + RawsOf(all[..k])
        decreases |entries|
      {
        RawsOfPrefix(all, k);
        var e := entries[0];
        entries := entries[1..];
        closedStatements := closedStatements + {e.holder.value};
        k := k + 1;
      }
      assert all[..k] == all;
    }
  }

  /**
   * A statement that is evicted while still in use stays in the cache's
   * bookkeeping: on a cache of one entry, a second miss evicts the first
   * holder while it is IN_USE, its statement is not closed then, and the
   * later `restore` of that holder closes it and leaves it EVICTED.
   */
  method EvictedWhileInUseIsClosedOnRestore() returns (evicted: bool)
    ensures evicted
  {
    var cache := new ClhmStatementCache(1);
    var invoker := new StatementInvoker(None);
    var first := ConnMethod(1, "prepareStatement", []);
    var second := ConnMethod(1, "prepareCall", []);
    var r1 := cache.Take(first, invoker);
    var h := r1.value;
    assert cache.entries == [Entry(first, h)];
    var r2 := cache.Take(second, invoker);
    assert h.state == Some(Evicted) && h.value !in cache.closedStatements;
    cache.Restore(h, false, false);
    assert h.value in cache.closedStatements;
    evicted := h.state == Some(Evicted);
  }
}
