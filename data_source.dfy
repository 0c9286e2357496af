/**
 * The pool's `DataSource`: its NEW / WORKING / TERMINATED lifecycle, the
 * configuration rules checked when it starts (including the mapping of the
 * default transaction isolation name to its JDBC constant and the clamp of
 * the statement-cache size), the choice between a blocking and a timed
 * take from the connection pool, the login-timeout unit conversion, and the
 * purge of a destroyed connection's statements from its own statement map.
 *
 * The connection pool and the pool reducer come from a separate library;
 * they appear only as the handles the data source creates, starts and
 * terminates. This data source keeps its statements in a plain map from
 * `StatementKey` (proxy connection, method, arguments) to a statement; a
 * statement is identified by a number, and closing it adds it to the ghost
 * set `closedStatements`.
 */
module DataSource {
  import opened JavaLang

  /** `DataSourceLifecycle.State` */
  datatype LifecycleState = New | Working | Terminated

  /**
   * The configuration values the core reads. A null value is `None`; an
   * external data source is only told apart from its absence.
   */
  datatype Config = Config(
    externalDataSource: bool,
    jdbcUrl: Option<string>,
    acquireRetryDelayInMs: int,
    acquireRetryAttempts: int,
    connectionTimeoutInMs: int64,
    statementCacheMaxSize: int,
    reducerTimeIntervalInSeconds: int,
    reducerSamples: int,
    connectionIdleLimitInSeconds: int,
    testConnectionQuery: Option<string>,
    defaultTransactionIsolation: Option<string>,
    poolInitialSize: int,
    poolMaxSize: int)

  /**
   * The configuration rules: a JDBC URL unless an external data source is
   * given; no negative retry delay, retry count, connection timeout, cache
   * size or reducer interval; a positive number of reducer samples; and a
   * test query whenever idle connections are to be tested (idle limit >= 0).
   */
  predicate ConfigValid(c: Config)
  {
    && (c.externalDataSource || c.jdbcUrl.Some?)
    && c.acquireRetryDelayInMs >= 0
    && c.acquireRetryAttempts >= 0
    && c.connectionTimeoutInMs >= 0
    && c.statementCacheMaxSize >= 0
    && c.reducerTimeIntervalInSeconds >= 0
    && c.reducerSamples > 0
    && (c.connectionIdleLimitInSeconds < 0 || c.testConnectionQuery.Some?)
  }

  // ---------------------------------------------------------------------
  // Transaction isolation

  /** The transaction isolation levels of `java.sql.Connection`. */
  datatype IsolationLevel = IsolationNone | ReadUncommitted | ReadCommitted | RepeatableRead | Serializable

  /** The name of a level as the configuration spells it (upper case). */
  function LevelName(level: IsolationLevel): (name: string)
  {
    match level
    case IsolationNone => "NONE"
    case ReadUncommitted => "READ_UNCOMMITTED"
    case ReadCommitted => "READ_COMMITTED"
    case RepeatableRead => "REPEATABLE_READ"
    case Serializable => "SERIALIZABLE"
  }

  /** The `Connection.TRANSACTION_*` constant of a level. */
  function LevelConstant(level: IsolationLevel): (value: int)
  {
    match level
    case IsolationNone => 0
    case ReadUncommitted => 1
    case ReadCommitted => 2
    case RepeatableRead => 4
    case Serializable => 8
  }

  /** Distinct levels have distinct names and distinct constants. */
  lemma LevelsDistinct(a: IsolationLevel, b: IsolationLevel)
    ensures LevelName(a) == LevelName(b) ==> a == b
    ensures LevelConstant(a) == LevelConstant(b) ==> a == b
  {
  }

  /** Upper case of one character, as `String.toUpperCase` gives it for the characters modelled. */
  function UpperChar(c: char): (u: char)
  {
    if 'a' <= c <= 'z' then (c as int - 'a' as int + 'A' as int) as char
    else if c == 'ı' then 'I'
    else if c == 'ſ' then 'S'
    else c
  }

  /** `String.toUpperCase()`, character by character. */
  function ToUpper(s: string): (u: string)
    ensures |u| == |s|
    ensures forall i :: 0 <= i < |s| ==> u[i] == UpperChar(s[i])
  {
    if s == [] then [] else [UpperChar(s[0])] + ToUpper(s[1..])
  }

  /** Upper-casing twice is upper-casing once. */
  lemma {:induction false} ToUpperIdempotent(s: string)
    ensures ToUpper(ToUpper(s)) == ToUpper(s)
  {
    if s != [] {
      ToUpperIdempotent(s[1..]);
      assert ToUpper(s)[1..] == ToUpper(s[1..]);
    }
  }

  /** The level an upper-case name denotes, if any. */
  function LevelOf(upper: string): (r: Option<IsolationLevel>)
    ensures r.Some? ==> LevelName(r.value) == upper
  {
    if upper == "NONE" then Some(IsolationNone)
    else if upper == "READ_COMMITTED" then Some(ReadCommitted)
    else if upper == "REPEATABLE_READ" then Some(RepeatableRead)
    else if upper == "READ_UNCOMMITTED" then Some(ReadUncommitted)
    else if upper == "SERIALIZABLE" then Some(Serializable)
    else None
  }

  /** Every level's own name denotes it, so an unknown name is exactly one that is no level's name. */
  lemma LevelOfName(level: IsolationLevel)
    ensures LevelOf(LevelName(level)) == Some(level)
  {
  }

  /** The isolation constant a configured name selects: matched case-insensitively, `None` when unknown. */
  function IsolationValue(name: string): (r: Option<int>)
  {
    match LevelOf(ToUpper(name))
    case None => None
    case Some(level) => Some(LevelConstant(level))
  }

  /**
   * A name selects a level exactly when its upper case is that level's
   * name, and any spelling that differs only in case selects the same one.
   */
  lemma IsolationValueMeaning(name: string, level: IsolationLevel)
    ensures IsolationValue(name) == Some(LevelConstant(level)) <==> ToUpper(name) == LevelName(level)
    ensures IsolationValue(ToUpper(name)) == IsolationValue(name)
  {
    ToUpperIdempotent(name);
    if ToUpper(name) == LevelName(level) {
      LevelOfName(level);
    }
    if IsolationValue(name) == Some(LevelConstant(level)) {
      var l := LevelOf(ToUpper(name)).value;
      LevelsDistinct(l, level);
    }
  }

  /** A string with no character that upper-cases to another one is its own upper case. */
  lemma ToUpperFixed(s: string)
    requires forall i :: 0 <= i < |s| ==> UpperChar(s[i]) == s[i]
    ensures ToUpper(s) == s
  {
  }

  /** Every level is selected by its own name. */
  lemma IsolationValueOfName(level: IsolationLevel)
    ensures IsolationValue(LevelName(level)) == Some(LevelConstant(level))
  {
    var name := LevelName(level);
    forall i | 0 <= i < |name| ensures UpperChar(name[i]) == name[i] {
      assert 'A' <= name[i] <= 'Z' || name[i] == '_';
    }
    ToUpperFixed(name);
    LevelOfName(level);
  }

  // ---------------------------------------------------------------------
  // Statement cache size, connection acquisition, login timeout

  /** `CACHE_MAX_SIZE` */
  const CACHE_MAX_SIZE: int := 1000

  /** The size the statement cache is built with: the configured size, at most `CACHE_MAX_SIZE`. */
  function EffectiveCacheSize(configured: int): (size: int)
    ensures size <= CACHE_MAX_SIZE && size <= configured
    ensures size == configured || size == CACHE_MAX_SIZE
  {
    if configured > CACHE_MAX_SIZE then CACHE_MAX_SIZE else configured
  }

  /** A connection holder handed out by the pool. */
  type ConnHolder = nat

  /** The pool operation `doGetConnection` uses. */
  datatype PoolCall = Take | TryTake(timeoutInMs: int64)

  /** The blocking `take()` for a timeout of zero, `tryTake(timeout, MILLISECONDS)` otherwise. */
  function PoolCallFor(timeout: int64): (call: PoolCall)
    ensures call == Take <==> timeout == 0
    ensures call.TryTake? ==> call.timeoutInMs == timeout
  {
    if timeout == 0 then Take else TryTake(timeout)
  }

  /**
   * `doGetConnection(timeout)`, where `reply` is what the pool answers to
   * each call (`None` for a null holder): the holder, or an SQLException
   * when the pool gives none.
   */
  function DoGetConnection(timeout: int64, reply: PoolCall -> Option<ConnHolder>): (r: Outcome<ConnHolder>)
    ensures r.Returned? <==> reply(PoolCallFor(timeout)).Some?
    ensures r.Returned? ==> r.value == reply(PoolCallFor(timeout)).value
    ensures r.Threw? ==> r.cause == SQLException("Couldn't obtain SQL connection.")
  {
    var holder := reply(if timeout == 0 then Take else TryTake(timeout));
    if holder.None? then Threw(SQLException("Couldn't obtain SQL connection.")) else Returned(holder.value)
  }

  /** `setLoginTimeout(seconds)` as written: `seconds * 1000` is computed in 32-bit arithmetic, then widened. */
  function StoredLoginTimeoutAsWritten(seconds: int32): (ms: int64)
  {
    Wrap32(seconds as int * 1000) as int64
  }

  /** `getLoginTimeout()`: `(int) ms / 1000`, the cast applied before the truncating division. */
  function LoginTimeoutAsWritten(ms: int64): (seconds: int32)
  {
    JavaDiv(Wrap32(ms as int) as int, 1000) as int32
  }

  /** As written, a login timeout of 2147484 seconds overflows and reads back as -2147483. */
  lemma LoginTimeoutOverflow()
    ensures StoredLoginTimeoutAsWritten(2147484) as int == 2147484000 - TWO_32
    ensures LoginTimeoutAsWritten(StoredLoginTimeoutAsWritten(2147484)) == -2147483
  {
    assert Wrap32(2147484000) as int == 2147484000 - TWO_32;
  }

  /** Truncating division undoes multiplication by 1000, for either sign. */
  lemma DivUndoesTimes1000(s: int)
    ensures JavaDiv(s * 1000, 1000) == s
  {
    if s >= 0 {
      assert (s * 1000) / 1000 == s;
    } else {
      assert ((-s) * 1000) / 1000 == -s;
      assert -(s * 1000) == (-s) * 1000;
    }
  }

  /** As written, the login timeout reads back as set only while `seconds * 1000` fits in an `int`. */
  lemma LoginTimeoutAsWrittenRoundTrip(seconds: int32)
    requires -2147483 <= seconds <= 2147483
    ensures LoginTimeoutAsWritten(StoredLoginTimeoutAsWritten(seconds)) == seconds
  {
    DivUndoesTimes1000(seconds as int);
  }

  /** Taking the product in `long` alone is not enough: the getter's cast still truncates before dividing. */
  lemma LongProductAloneOverflows()
    ensures StoredLoginTimeout(2147484) as int == 2147484000
    ensures LoginTimeoutAsWritten(StoredLoginTimeout(2147484)) == -2147483
  {
    assert Wrap32(2147484000) as int == 2147484000 - TWO_32;
  }

  /** `setLoginTimeout(seconds)` with the product computed as a `long`. */
  function StoredLoginTimeout(seconds: int32): (ms: int64)
  {
    (seconds as int * 1000) as int64
  }

  /** `getLoginTimeout()` dividing the `long` first and narrowing the quotient. */
  function LoginTimeout(ms: int64): (seconds: int32)
  {
    Wrap32(JavaDiv(ms as int, 1000))
  }

  /** With the product and the quotient in `long`, every login timeout reads back as set. */
  lemma LoginTimeoutRoundTrip(seconds: int32)
    ensures StoredLoginTimeout(seconds) as int == seconds as int * 1000
    ensures LoginTimeout(StoredLoginTimeout(seconds)) == seconds
  {
    DivUndoesTimes1000(seconds as int);
  }

  // ---------------------------------------------------------------------
  // The data source's own statement map and its purge

  /** A JDBC statement, by identity. */
  type StatementRef = nat

  /** `StatementKey`: the proxy connection, the method and its arguments. */
  datatype StatementKey = StatementKey(proxy: nat, methodName: string, args: seq<Value>)

  datatype CacheEntry = CacheEntry(key: StatementKey, value: StatementRef)

  /** The statement map: its capacity and its entries in iteration order. */
  datatype StatementMap = StatementMap(maxSize: int, entries: seq<CacheEntry>)

  /** The entries of connections other than `conn`, in order. */
  function Kept(es: seq<CacheEntry>, conn: nat): seq<CacheEntry>
  {
    if es == [] then []
    else Kept(es[..|es| - 1], conn) + (if es[|es| - 1].key.proxy == conn then [] else [es[|es| - 1]])
  }

  /** The entries of connection `conn`, in order. */
  function Purged(es: seq<CacheEntry>, conn: nat): seq<CacheEntry>
  {
    if es == [] then []
    else Purged(es[..|es| - 1], conn) + (if es[|es| - 1].key.proxy == conn then [es[|es| - 1]] else [])
  }

  /** The statements of some entries. */
  ghost function Statements(es: seq<CacheEntry>): set<StatementRef>
  {
    if es == [] then {} else Statements(es[..|es| - 1]) + {es[|es| - 1].value}
  }

  /** A purge splits the entries into those kept (other connections) and those purged (`conn`), none lost. */
  lemma {:induction false} PurgeSplits(es: seq<CacheEntry>, conn: nat)
    ensures |Kept(es, conn)| + |Purged(es, conn)| == |es|
    ensures forall e :: e in Kept(es, conn) <==> e in es && e.key.proxy != conn
    ensures forall e :: e in Purged(es, conn) <==> e in es && e.key.proxy == conn
  {
    if es != [] {
      PurgeSplits(es[..|es| - 1], conn);
      assert es == es[..|es| - 1] + [es[|es| - 1]];
    }
  }

  /** The statements of some entries are exactly the values they hold. */
  lemma {:induction false} StatementsMembers(es: seq<CacheEntry>)
    ensures forall s :: s in Statements(es) <==> exists e :: e in es && e.value == s
  {
    if es != [] {
      StatementsMembers(es[..|es| - 1]);
      assert es == es[..|es| - 1] + [es[|es| - 1]];
    }
  }

  lemma StatementsAppend(es: seq<CacheEntry>, e: CacheEntry)
    ensures Statements(es + [e]) == Statements(es) + {e.value}
  {
    assert (es + [e])[..|es|] == es;
  }

  /** One more entry of the purge loop: how the kept, purged and closed parts of a prefix grow. */
  lemma PurgeStep(es: seq<CacheEntry>, k: nat, conn: nat)
    requires k < |es|
    ensures Kept(es[..k + 1], conn) == Kept(es[..k], conn) + (if es[k].key.proxy == conn then [] else [es[k]])
    ensures Purged(es[..k + 1], conn) == Purged(es[..k], conn) + (if es[k].key.proxy == conn then [es[k]] else [])
  {
    assert es[..k + 1][..k] == es[..k];
  }

  /** One more entry of a prefix adds its statement to the prefix's statements. */
  lemma StatementsPrefix(es: seq<CacheEntry>, k: nat)
    requires k < |es|
    ensures Statements(es[..k + 1]) == Statements(es[..k]) + {es[k].value}
  {
    assert es[..k + 1][..k] == es[..k];
  }

  /** The loop invariant of `PurgeEntries` carries over one more entry, whether it is removed or stepped over. */
  lemma PurgeLoopStep(entries: seq<CacheEntry>, k: nat, conn: nat, kept: seq<CacheEntry>, j: nat)
    requires k < |entries| && kept == Kept(entries[..k], conn) + entries[k..] && j == |Kept(entries[..k], conn)|
    ensures j < |kept| && kept[j] == entries[k]
    ensures entries[k].key.proxy == conn ==>
      && kept[..j] + kept[j + 1..] == Kept(entries[..k + 1], conn) + entries[k + 1..]
      && j == |Kept(entries[..k + 1], conn)|
      && Statements(Purged(entries[..k + 1], conn)) == Statements(Purged(entries[..k], conn)) + {entries[k].value}
    ensures entries[k].key.proxy != conn ==>
      && kept == Kept(entries[..k + 1], conn) + entries[k + 1..]
      && j + 1 == |Kept(entries[..k + 1], conn)|
      && Purged(entries[..k + 1], conn) == Purged(entries[..k], conn)
  {
    PurgeStep(entries, k, conn);
    var e := entries[k];
    if e.key.proxy == conn {
      StatementsAppend(Purged(entries[..k], conn), e);
      assert kept[..j] == Kept(entries[..k], conn);
      assert kept[j + 1..] == entries[k + 1..];
    } else {
      assert Kept(entries[..k + 1], conn) == Kept(entries[..k], conn) + [e];
      assert entries[k..] == [e] + entries[k + 1..];
    }
  }

  /**
   * The iterator loop of `onDestroy`: walks the entries, closing and
   * removing each one of `conn` and stepping over the others. `closed` is
   * the set of statements it closes.
   */
  method PurgeEntries(entries: seq<CacheEntry>, conn: nat) returns (kept: seq<CacheEntry>, ghost closed: set<StatementRef>)
    ensures kept == Kept(entries, conn)
    ensures closed == Statements(Purged(entries, conn))
  {
    kept := entries;
    closed := {};
    var j := 0;
    ghost var k := 0;
    while j < |kept|
      invariant 0 <= k <= |entries|
      invariant kept == Kept(entries[..k], conn) + entries[k..]
      invariant j == |Kept(entries[..k], conn)|
      invariant closed == Statements(Purged(entries[..k], conn))
      decreases |kept| - j
    {
      PurgeLoopStep(entries, k, conn, kept, j);
      var e := kept[j];
      if e.key.proxy == conn {
        closed := closed + {e.value};
        kept := kept[..j] + kept[j + 1..];
      } else {
        j := j + 1;
      }
      k := k + 1;
    }
    assert entries[..k] == entries;
  }

  // ---------------------------------------------------------------------
  // The pool and reducer handles

  /** The connection pool, seen only through its lifecycle. */
  class PoolService {
    const initialSize: int
    const maxSize: int
    var terminated: bool

    constructor (initialSize: int, maxSize: int)
      ensures this.initialSize == initialSize && this.maxSize == maxSize && !terminated
    {
      this.initialSize := initialSize;
      this.maxSize := maxSize;
      terminated := false;
    }

    method Terminate()
      modifies this
      ensures terminated
    {
      terminated := true;
    }
  }

  /** The sampling pool reducer, seen only through its lifecycle. */
  class PoolReducer {
    const pool: PoolService
    const timeIntervalInSeconds: int
    const samples: int
    var started: bool
    var terminated: bool

    constructor (pool: PoolService, timeIntervalInSeconds: int, samples: int)
      ensures this.pool == pool && this.timeIntervalInSeconds == timeIntervalInSeconds && this.samples == samples
      ensures !started && !terminated
    {
      this.pool := pool;
      this.timeIntervalInSeconds := timeIntervalInSeconds;
      this.samples := samples;
      started := false;
      terminated := false;
    }

    method Start()
      modifies this
      ensures started && terminated == old(terminated)
    {
      started := true;
    }

    method Terminate()
      modifies this
      ensures terminated && started == old(started)
    {
      terminated := true;
    }
  }

  // ---------------------------------------------------------------------
  // The data source

  class ViburDBCPDataSource {
    var config: Config
    var state: LifecycleState
    /** `defaultTransactionIsolationValue`; `None` while unset. */
    var isolationValue: Option<int>
    var pool: PoolService?
    var reducer: PoolReducer?
    var statementCache: Option<StatementMap>
    /** The statements this data source has closed. */
    ghost var closedStatements: set<StatementRef>

    /** A data source configured with `config` (configuration loading is not modelled). */
    constructor (config: Config)
      ensures this.config == config && state == New && isolationValue == None
      ensures pool == null && reducer == null && statementCache == None && closedStatements == {}
    {
      this.config := config;
      state := New;
      isolationValue := None;
      pool := null;
      reducer := null;
      statementCache := None;
      closedStatements := {};
    }

    /** `getState()` */
    method GetState() returns (s: LifecycleState)
      ensures s == state
    {
      s := state;
    }

    /**
     * `validateConfig()`: the first rule broken throws
     * IllegalArgumentException; when all hold, a known isolation name sets
     * the isolation value and an unknown one leaves it as it was.
     */
    method ValidateConfig() returns (r: Outcome<()>)
      modifies this`isolationValue
      ensures r.Threw? <==> !ConfigValid(config)
      ensures r.Threw? ==> r.cause == IllegalArgumentException && isolationValue == old(isolationValue)
      ensures r.Returned? ==>
        isolationValue ==
          if config.defaultTransactionIsolation.Some? && IsolationValue(config.defaultTransactionIsolation.value).Some?
          then IsolationValue(config.defaultTransactionIsolation.value)
          else old(isolationValue)
    {
      if !config.externalDataSource {
        if config.jdbcUrl.None? { return Threw(IllegalArgumentException); }
      }
      if config.acquireRetryDelayInMs < 0 { return Threw(IllegalArgumentException); }
      if config.acquireRetryAttempts < 0 { return Threw(IllegalArgumentException); }
      if config.connectionTimeoutInMs < 0 { return Threw(IllegalArgumentException); }
      if config.statementCacheMaxSize < 0 { return Threw(IllegalArgumentException); }
      if config.reducerTimeIntervalInSeconds < 0 { return Threw(IllegalArgumentException); }
      if config.reducerSamples <= 0 { return Threw(IllegalArgumentException); }
      if config.connectionIdleLimitInSeconds >= 0 && config.testConnectionQuery.None? {
        return Threw(IllegalArgumentException);
      }
      if config.defaultTransactionIsolation.Some? {
        var upper := ToUpper(config.defaultTransactionIsolation.value);
        if upper == "NONE" {
          isolationValue := Some(0);
        } else if upper == "READ_COMMITTED" {
          isolationValue := Some(2);
        } else if upper == "REPEATABLE_READ" {
          isolationValue := Some(4);
        } else if upper == "READ_UNCOMMITTED" {
          isolationValue := Some(1);
        } else if upper == "SERIALIZABLE" {
          isolationValue := Some(8);
        }
      }
      return Returned(());
    }

    /**
     * `start()`: only from NEW. The state becomes WORKING before the
     * configuration is checked; with a valid configuration the pool is
     * created, a reducer is created and started when its interval is
     * positive, and a statement map is built when the clamped cache size is
     * positive.
     */
    method Start() returns (r: Outcome<()>)
      modifies this`state, this`isolationValue, this`pool, this`reducer, this`statementCache
      ensures old(state) != New ==>
        && r == Threw(IllegalStateException) && state == old(state) && isolationValue == old(isolationValue)
        && pool == old(pool) && reducer == old(reducer) && statementCache == old(statementCache)
      ensures old(state) == New ==> state == Working
      ensures old(state) == New && !ConfigValid(config) ==>
        && r == Threw(IllegalArgumentException) && isolationValue == old(isolationValue)
        && pool == old(pool) && reducer == old(reducer) && statementCache == old(statementCache)
      ensures old(state) == New && ConfigValid(config) ==>
        && r == Returned(())
        && isolationValue ==
             (if config.defaultTransactionIsolation.Some? && IsolationValue(config.defaultTransactionIsolation.value).Some?
              then IsolationValue(config.defaultTransactionIsolation.value)
              else old(isolationValue))
        && pool != null && fresh(pool) && !pool.terminated
        && pool.initialSize == config.poolInitialSize && pool.maxSize == config.poolMaxSize
        && (reducer != old(reducer) <==> config.reducerTimeIntervalInSeconds > 0)
        && (config.reducerTimeIntervalInSeconds > 0 ==>
              reducer != null && fresh(reducer) && reducer.pool == pool && reducer.started && !reducer.terminated)
        && statementCache ==
             if EffectiveCacheSize(config.statementCacheMaxSize) > 0
             then Some(StatementMap(EffectiveCacheSize(config.statementCacheMaxSize), []))
             else old(statementCache)
    {
      if state != New {
        return Threw(IllegalStateException);
      }
      state := Working;
      r := ValidateConfig();
      if r.Threw? {
        return;
      }
      var p := new PoolService(config.poolInitialSize, config.poolMaxSize);
      StartPoolReducer(p);
      pool := p;
      InitStatementCache();
      r := Returned(());
    }

    /** `startPoolReducer(pool)`: a reducer exists only for a positive interval. */
    method StartPoolReducer(p: PoolService)
      modifies this`reducer
      ensures config.reducerTimeIntervalInSeconds <= 0 ==> reducer == old(reducer)
      ensures config.reducerTimeIntervalInSeconds > 0 ==>
        && reducer != null && fresh(reducer) && reducer.pool == p && reducer.started && !reducer.terminated
        && reducer.timeIntervalInSeconds == config.reducerTimeIntervalInSeconds
        && reducer.samples == config.reducerSamples
    {
      if config.reducerTimeIntervalInSeconds > 0 {
        var red := new PoolReducer(p, config.reducerTimeIntervalInSeconds, config.reducerSamples);
        red.Start();
        reducer := red;
      }
    }

    /** `initStatementCache()`: a map of the clamped size, only when that size is positive. */
    method InitStatementCache()
      modifies this`statementCache
      ensures statementCache ==
        if EffectiveCacheSize(config.statementCacheMaxSize) > 0
        then Some(StatementMap(EffectiveCacheSize(config.statementCacheMaxSize), []))
        else old(statementCache)
    {
      var size := config.statementCacheMaxSize;
      if size > CACHE_MAX_SIZE {
        size := CACHE_MAX_SIZE;
      }
      if size > 0 {
        statementCache := Some(StatementMap(size, []));
      }
    }

    /**
     * `terminate()`: nothing once TERMINATED; a NEW data source only becomes
     * TERMINATED. A WORKING one also closes and drops every cached
     * statement, discards the map, stops the reducer and terminates the pool
     * (a data source whose start failed has no pool, and the call throws).
     */
    method Terminate() returns (r: Outcome<()>)
      modifies this`state, this`statementCache, this`closedStatements, reducer, pool
      ensures state == Terminated
      ensures old(state) != Working ==>
        && r == Returned(()) && statementCache == old(statementCache) && closedStatements == old(closedStatements)
        && (reducer != null ==> reducer.terminated == old(reducer.terminated))
        && (pool != null ==> pool.terminated == old(pool.terminated))
      ensures old(state) == Working ==>
        && statementCache == None
        && closedStatements ==
             old(closedStatements) + (if old(statementCache).Some? then Statements(old(statementCache).value.entries) else {})
        && (reducer != null ==> reducer.terminated)
        && (r.Threw? <==> pool == null)
        && (r.Threw? ==> r.cause == NullPointerException)
        && (pool != null ==> pool.terminated)
      ensures reducer != null ==> reducer.started == old(reducer.started)
    {
      if state == Terminated {
        return Returned(());
      }
      var oldState := state;
      state := Terminated;
      if oldState == New {
        return Returned(());
      }
      if statementCache.Some? {
        CloseAllStatements();
        statementCache := None;
      }
      if reducer != null {
        reducer.Terminate();
      }
      if pool == null {
        return Threw(NullPointerException);
      }
      pool.Terminate();
      return Returned(());
    }

    /** The loop of `terminate` over the map: every statement is closed and its entry removed. */
    method CloseAllStatements()
      requires statementCache.Some?
      modifies this`statementCache, this`closedStatements
      ensures statementCache == Some(old(statementCache).value.(entries := []))
      ensures closedStatements == old(closedStatements) + Statements(old(statementCache).value.entries)
    {
      ghost var all := statementCache.value.entries;
      var k := 0;
      while statementCache.value.entries != []
        invariant statementCache.Some? && statementCache.value.maxSize == old(statementCache).value.maxSize
        invariant 0 <= k <= |all| && statementCache.value.entries == all[k..]
        invariant closedStatements == old(closedStatements) + Statements(all[..k])
        decreases |statementCache.value.entries|
      {
        StatementsPrefix(all, k);
        var e := statementCache.value.entries[0];
        closedStatements := closedStatements + {e.value};
        statementCache := Some(statementCache.value.(entries := statementCache.value.entries[1..]));
        k := k + 1;
      }
      assert all[..k] == all;
    }

    /**
     * `onDestroy(connection)`: without a map nothing happens; otherwise
     * exactly the entries of `connection` are closed and removed, and every
     * other entry stays, in order.
     */
    method OnDestroy(connection: nat)
      modifies this`statementCache, this`closedStatements
      ensures old(statementCache).None? ==>
        statementCache == old(statementCache) && closedStatements == old(closedStatements)
      ensures old(statementCache).Some? ==>
        && statementCache == Some(old(statementCache).value.(entries := Kept(old(statementCache).value.entries, connection)))
        && closedStatements == old(closedStatements) + Statements(Purged(old(statementCache).value.entries, connection))
    {
      if statementCache.None? {
        return;
      }
      var kept, closed := PurgeEntries(statementCache.value.entries, connection);
      closedStatements := closedStatements + closed;
      statementCache := Some(statementCache.value.(entries := kept));
    }

    /**
     * `setLoginTimeout(seconds)`: the connection timeout becomes `seconds`
     * times 1000, the product taken in 32-bit arithmetic; it reads back as
     * set only while that product fits in an `int`.
     */
    method SetLoginTimeout(seconds: int32)
      modifies this`config
      ensures config == old(config).(connectionTimeoutInMs := StoredLoginTimeoutAsWritten(seconds))
      ensures -2147483 <= seconds <= 2147483 ==> LoginTimeoutAsWritten(config.connectionTimeoutInMs) == seconds
    {
      config := config.(connectionTimeoutInMs := StoredLoginTimeoutAsWritten(seconds));
      if -2147483 <= seconds <= 2147483 {
        LoginTimeoutAsWrittenRoundTrip(seconds);
      }
    }

    /** `getLoginTimeout()`: the connection timeout narrowed to an `int`, then divided by 1000. */
    method GetLoginTimeout() returns (seconds: int32)
      ensures seconds == LoginTimeoutAsWritten(config.connectionTimeoutInMs)
    {
      seconds := LoginTimeoutAsWritten(config.connectionTimeoutInMs);
    }

    /**
     * `getConnection()`: `doGetConnection` with the configured connection
     * timeout. Without a pool (never started, or a start that failed
     * validation) the call on the pool throws NullPointerException.
     */
    method GetConnection(reply: PoolCall -> Option<ConnHolder>) returns (r: Outcome<ConnHolder>)
      ensures pool == null ==> r == Threw(NullPointerException)
      ensures pool != null ==> r == DoGetConnection(config.connectionTimeoutInMs, reply)
      ensures pool != null ==> (r.Threw? <==> reply(PoolCallFor(config.connectionTimeoutInMs)).None?)
    {
      if pool == null {
        return Threw(NullPointerException);
      }
      r := DoGetConnection(config.connectionTimeoutInMs, reply);
    }
  }
}
