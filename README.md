# vibur-dbcp core, modelled in Dafny

This project models the sequential core of the Vibur DBCP JDBC connection pool and proves properties of that model. It covers four parts.

- **The JDBC statement cache** (`ClhmStatementCache`, module `StatementCache`).
  - It is a bounded map with least-recently-used eviction. Keys are (raw connection, method, arguments); values are holders of prepared statements.
  - A holder's state is AVAILABLE, IN_USE or EVICTED, or none for an uncached holder.
  - The cache is a class. Its map is a sequence of entries in recency order: the head is the eldest entry.
  - It has a `closed` flag. The ghost set `closedStatements` records every raw statement the cache has closed.
  - The class invariant `Valid()` says:
    - the map holds at most `maxSize` entries, with distinct keys;
    - the map is empty once the cache is closed;
    - no entry is EVICTED or holds a closed statement.
- **Invocation dispatch of the JDBC proxies** (`AbstractInvocationHandler`, module `InvocationHandler`).
  - Routing by method name, answered by pure functions.
  - `unwrap`/`isWrapperFor` as pure functions.
  - Forwarding to the real object. A failure of the real object is recorded in an exception listener unless it is a `SQLTransientConnectionException`.
- **The data source** (`ViburDBCPDataSource`, module `DataSource`).
  - The NEW → WORKING → TERMINATED lifecycle.
  - The configuration rules and the case-insensitive mapping of the default transaction isolation name to its `java.sql.Connection` constant.
  - The clamp of the statement-cache size to 1000.
  - The choice between the pool's blocking `take` and timed `tryTake`.
  - The login-timeout unit conversion.
  - The purge of a destroyed connection's statements from the data source's own statement map.
- **The factory version counter** (`ViburObjectFactory`, module `ObjectFactory`). It is a class with one `version` field, read by `version()` and changed by compare-and-set.

Module `JavaLang` holds the Java pieces the others share:
- `int`/`long` ranges, 32-bit wrap-around and truncating division;
- `Option`;
- exceptions, and the outcome of a call that returns or throws;
- object references and reflective values.

In every module, each compare-and-set is a sequential check-and-set. Every JDBC call that can fail takes its result as a parameter:
- `clearWarnings` failing is `clearWarningsFails`;
- the driver creating a statement is `StatementInvoker.failure`. When the driver does not fail, it is taken to return a new statement object on every call. The cache's invariant that distinct holders hold distinct statements rests on this, and so does `remove` deleting exactly one entry;
- `Method.invoke` on the proxied object is `invokeTarget`;
- the pool's answer to `take`/`tryTake` is `reply`.

Closing a statement is modelled as adding it to a ghost set.

## Model

| member | source | states |
|---|---|---|
| StatementCache.ClhmStatementCache.Create | src/main/java/org/vibur/dbcp/cache/ClhmStatementCache.java:52-55 | Construction throws IllegalArgumentException exactly when `maxSize <= 0`. Otherwise it yields an empty, open cache that satisfies the invariant. |
| StatementCache.ClhmStatementCache.OnEviction | src/main/java/org/vibur/dbcp/cache/ClhmStatementCache.java:76-80 | The victim ends EVICTED. Its statement is closed exactly when its previous state was AVAILABLE; an IN_USE victim stays open. The change is an allowed `Transition`. |
| StatementCache.ClhmStatementCache.EvictEldest | src/main/java/org/vibur/dbcp/cache/ClhmStatementCache.java:76-80 | The eldest entry leaves the map and goes through the eviction listener. Every state change is an allowed `Transition`, and the invariant is kept. |
| StatementCache.ClhmStatementCache.PutIfAbsent | src/main/java/org/vibur/dbcp/cache/ClhmStatementCache.java:98 | First writer wins. A present key returns its holder and nothing is installed. An absent key installs the new entry as most recently used and evicts the eldest entry when the map is full. The size bound and distinct keys are kept. |
| StatementCache.ClhmStatementCache.Get | src/main/java/org/vibur/dbcp/cache/ClhmStatementCache.java:89 | Returns the holder of the key, or null when the key is absent. A hit makes the entry the most recently used; a miss changes nothing. |
| StatementCache.ClhmStatementCache.Take | src/main/java/org/vibur/dbcp/cache/ClhmStatementCache.java:85-102 | The four cases of `take`:<br>a closed cache returns null and changes nothing;<br>an AVAILABLE entry becomes IN_USE and is returned without invoking the target;<br>an entry that is not AVAILABLE keeps its state, and a fresh uncached (null-state) holder is returned after one invocation;<br>a miss invokes the target once and installs a fresh IN_USE entry, evicting the eldest entry if full.<br>On a miss, a target exception is rethrown with the map unchanged. On a busy entry, the lookup has already made that entry the most recently used.<br>Every holder issued before stays issued, so it can still be restored, and every state change is an allowed `Transition`. The invariant is kept. |
| StatementCache.ClhmStatementCache.TakeCached | src/main/java/org/vibur/dbcp/cache/ClhmStatementCache.java:89-93 | The lookup plus `compareAndSet(AVAILABLE, IN_USE)`. It succeeds exactly when the entry found was AVAILABLE, which it then makes IN_USE. Every state change is an allowed `Transition`. |
| StatementCache.ClhmStatementCache.CreateStatement | src/main/java/org/vibur/dbcp/cache/ClhmStatementCache.java:95-101 | The target is invoked exactly once. With no entry the new statement is installed IN_USE; with a busy entry it is handed out uncached and the map is unchanged. Earlier holders stay issued, and every state change is an allowed `Transition`. |
| StatementCache.ClhmStatementCache.Restore | src/main/java/org/vibur/dbcp/cache/ClhmStatementCache.java:105-125 | The cases of `restore`:<br>a null-state holder is a no-op;<br>when the cache is closed, or clearing the warnings fails, the entry leaves the map, the statement is closed and the holder ends EVICTED;<br>otherwise IN_USE becomes AVAILABLE, and a holder EVICTED while in use has its statement closed.<br>Every change is an allowed `Transition`, and the invariant is kept. |
| StatementCache.ClhmStatementCache.Remove | src/main/java/org/vibur/dbcp/cache/ClhmStatementCache.java:128-135 | Returns true exactly when some entry holds that raw statement (compared by identity). It deletes that one entry and no other, and afterwards no entry holds the statement. |
| StatementCache.ClhmStatementCache.RemoveAll | src/main/java/org/vibur/dbcp/cache/ClhmStatementCache.java:138-149 | The map keeps exactly the other connections' entries, in order. The removed entries' statements are closed, and the count returned is the number removed. The invariant is kept. |
| StatementCache.SplitByConnection | src/main/java/org/vibur/dbcp/cache/ClhmStatementCache.java:140-147 | The iteration of `removeAll` yields the survivors, the closed statements of the entries of `conn`, and their count. |
| StatementCache.PartitionByConnection | src/main/java/org/vibur/dbcp/cache/ClhmStatementCache.java:143 | The survivors and the removed entries together account for every entry. An entry survives exactly when its key's target is another connection. |
| StatementCache.SurvivorsOfUntouched | src/main/java/org/vibur/dbcp/cache/ClhmStatementCache.java:143 | `removeAll` on a connection with no entries removes nothing and leaves the map as it was. |
| StatementCache.SurvivorsStayDistinct | src/main/java/org/vibur/dbcp/cache/ClhmStatementCache.java:138-149 | The survivors of `removeAll` still have distinct keys and holders. |
| StatementCache.SurvivorsKeepTheirStatements | src/main/java/org/vibur/dbcp/cache/ClhmStatementCache.java:144 | Closing the removed entries' statements never closes a survivor's statement. |
| StatementCache.ClhmStatementCache.Close | src/main/java/org/vibur/dbcp/cache/ClhmStatementCache.java:155-164 | `close` is idempotent: a second call changes nothing. The first call empties the map and closes every statement that was in it. |
| StatementCache.ClhmStatementCache.IsClosed | src/main/java/org/vibur/dbcp/cache/ClhmStatementCache.java:167-169 | Returns the `closed` flag. |
| StatementCache.EvictedIsSink | src/main/java/org/vibur/dbcp/cache/ClhmStatementCache.java:77 | Under the allowed transitions EVICTED is a sink, and an uncached holder never gains a state. Every state-changing operation of the cache ensures its changes are allowed transitions. |
| StatementCache.EvictedWhileInUseIsClosedOnRestore | src/main/java/org/vibur/dbcp/cache/ClhmStatementCache.java:76-125 | On a cache of one entry, a second miss evicts the first holder while it is IN_USE without closing its statement. The later `restore` of that holder closes the statement and leaves the holder EVICTED. |
| StatementCache.IndexOfAbsent | src/main/java/org/vibur/dbcp/cache/ClhmStatementCache.java:89 | The lookup misses exactly when no entry has the key. |
| StatementCache.TouchProps | src/main/java/org/vibur/dbcp/cache/ClhmStatementCache.java:89 | An access keeps the same entries and their distinctness, moves the accessed entry last and keeps the order of the rest. |
| StatementCache.AdmitProps | src/main/java/org/vibur/dbcp/cache/ClhmStatementCache.java:98 | Inserting for an absent key keeps the size bound and distinct keys, and adds only the new entry. |
| StatementCache.WithoutRawProps | src/main/java/org/vibur/dbcp/cache/ClhmStatementCache.java:128-135 | Removing by statement keeps distinctness. It removes exactly one entry if one matched and none otherwise. |
| InvocationHandler.AbstractInvocationHandler.Create | src/main/java/org/vibur/dbcp/proxy/AbstractInvocationHandler.java:43-48 | Throws NullPointerException exactly when the target or the exception listener is null. Otherwise it keeps both. |
| InvocationHandler.RouteOf | src/main/java/org/vibur/dbcp/proxy/AbstractInvocationHandler.java:54-68 | A call is routed to a special handler only under that handler's own name. |
| InvocationHandler.ForwardedExactly | src/main/java/org/vibur/dbcp/proxy/AbstractInvocationHandler.java:56-68 | A call is forwarded exactly when its name is none of `equals`, `hashCode`, `toString`, `unwrap` and `isWrapperFor`. |
| InvocationHandler.LocalAnswer | src/main/java/org/vibur/dbcp/proxy/AbstractInvocationHandler.java:56-66 | The answers computed locally:<br>`equals` is proxy identity with `args[0]`;<br>`hashCode` is the proxy's identity hash;<br>`toString` is `"Proxy for: "` plus the target;<br>`unwrap` and `isWrapperFor` go through the class argument. |
| InvocationHandler.EqualsIsProxyIdentity | src/main/java/org/vibur/dbcp/proxy/AbstractInvocationHandler.java:56-57 | `equals` answers true exactly for the proxy itself. |
| InvocationHandler.ClassArg | src/main/java/org/vibur/dbcp/proxy/AbstractInvocationHandler.java:63-66 | The cast `(Class<?>) args[0]`. A null argument is `None`; a non-class argument throws ClassCastException; a missing argument array throws NullPointerException. |
| InvocationHandler.IsWrapperFor | src/main/java/org/vibur/dbcp/proxy/AbstractInvocationHandler.java:78-80 | True exactly when the target is an instance of the class. A null class throws NullPointerException. |
| InvocationHandler.Unwrap | src/main/java/org/vibur/dbcp/proxy/AbstractInvocationHandler.java:72-76 | Returns the target exactly when `isWrapperFor` holds. Otherwise it throws SQLException("not a wrapper for …"), or the exception `isWrapperFor` threw. |
| InvocationHandler.AbstractInvocationHandler.Invoke | src/main/java/org/vibur/dbcp/proxy/AbstractInvocationHandler.java:52-69 | A special name gets the local answer and leaves the listener unchanged. Any other name gives the target's outcome, and the listener grows by exactly what `Recorded` says. |
| InvocationHandler.AbstractInvocationHandler.CustomInvoke | src/main/java/org/vibur/dbcp/proxy/AbstractInvocationHandler.java:82-85 | The default `customInvoke` is the target call, with its listener effect. |
| InvocationHandler.AbstractInvocationHandler.TargetInvoke | src/main/java/org/vibur/dbcp/proxy/AbstractInvocationHandler.java:87-96 | A result is returned with the listener unchanged. A failure is rethrown: its cause is appended once, unless it is a SQLTransientConnectionException, in which case the listener is unchanged. |
| InvocationHandler.Recorded | src/main/java/org/vibur/dbcp/proxy/AbstractInvocationHandler.java:90-94 | A forwarded call adds its cause to the listener only when it failed with a cause other than a transient connection exception. |
| DataSource.ViburDBCPDataSource.Start | src/main/java/org/vibur/dbcp/ViburDBCPDataSource.java:208-222 | Outside NEW it throws IllegalStateException and changes nothing. From NEW the state becomes WORKING even when validation then throws; the isolation value then stays as it was. With a valid configuration a known isolation name sets the isolation value, and it creates the pool, the reducer when its interval is positive, and the statement map when the clamped size is positive. |
| DataSource.ViburDBCPDataSource.Terminate | src/main/java/org/vibur/dbcp/ViburDBCPDataSource.java:225-245 | The cases of `terminate`:<br>it always ends TERMINATED;<br>from TERMINATED or NEW nothing else changes;<br>from WORKING every cached statement is closed, the map is dropped, the reducer and the pool are terminated, and a missing pool (a failed start) makes it throw NullPointerException.<br>Whether the reducer was started is left as it was. |
| DataSource.ViburDBCPDataSource.CloseAllStatements | src/main/java/org/vibur/dbcp/ViburDBCPDataSource.java:231-239 | Every statement in the map is closed and the map is emptied. |
| DataSource.ViburDBCPDataSource.ValidateConfig | src/main/java/org/vibur/dbcp/ViburDBCPDataSource.java:247-280 | Throws IllegalArgumentException exactly when `ConfigValid` fails. Otherwise a known isolation name sets the isolation value to its constant, and an unknown name leaves the value as it was. |
| DataSource.IsolationValueMeaning | src/main/java/org/vibur/dbcp/ViburDBCPDataSource.java:263-278 | A name selects a level exactly when its upper case is that level's name, and upper-casing a name first selects the same value. |
| DataSource.IsolationValueOfName | src/main/java/org/vibur/dbcp/ViburDBCPDataSource.java:263-274 | Each of the five names selects its own constant. |
| DataSource.LevelsDistinct | src/main/java/org/vibur/dbcp/ViburDBCPDataSource.java:265-274 | The five names are distinct, and so are the five constants. |
| DataSource.ToUpperIdempotent | src/main/java/org/vibur/dbcp/ViburDBCPDataSource.java:264 | Upper-casing twice is the same as upper-casing once. |
| DataSource.ToUpper | src/main/java/org/vibur/dbcp/ViburDBCPDataSource.java:264 | The result has the same length, with each character upper-cased. |
| DataSource.EffectiveCacheSize | src/main/java/org/vibur/dbcp/ViburDBCPDataSource.java:298-301 | The cache size is the smaller of the configured size and 1000. |
| DataSource.ViburDBCPDataSource.InitStatementCache | src/main/java/org/vibur/dbcp/ViburDBCPDataSource.java:298-304 | A map of the clamped size is built only when that size is positive. |
| DataSource.ViburDBCPDataSource.StartPoolReducer | src/main/java/org/vibur/dbcp/ViburDBCPDataSource.java:282-296 | A reducer is created and started only for a positive interval, with the configured interval and samples. |
| DataSource.PoolCallFor | src/main/java/org/vibur/dbcp/ViburDBCPDataSource.java:333-334 | A timeout of 0 uses the blocking `take`; any other timeout uses `tryTake` with that timeout. |
| DataSource.DoGetConnection | src/main/java/org/vibur/dbcp/ViburDBCPDataSource.java:332-339 | Returns the pool's holder, or throws SQLException("Couldn't obtain SQL connection.") exactly when the pool gives none. |
| DataSource.ViburDBCPDataSource.GetConnection | src/main/java/org/vibur/dbcp/ViburDBCPDataSource.java:307-339 | Without a pool (never started, or the start failed validation) it throws NullPointerException. With a pool it is `doGetConnection` with the configured connection timeout, and it fails exactly when the pool gives no holder. |
| DataSource.LoginTimeoutOverflow | src/main/java/org/vibur/dbcp/ViburDBCPDataSource.java:363-370 | As written, 2147484 seconds is stored as a negative number of milliseconds and reads back as -2147483. |
| DataSource.LoginTimeoutAsWrittenRoundTrip | src/main/java/org/vibur/dbcp/ViburDBCPDataSource.java:363-370 | As written, the login timeout reads back as set while the product fits in an `int`. |
| DataSource.LongProductAloneOverflows | src/main/java/org/vibur/dbcp/ViburDBCPDataSource.java:363-370 | Taking the product in `long` alone does not fix the round trip: the getter's `(int)` cast before the division still turns 2147484 seconds into -2147483. |
| DataSource.LoginTimeoutRoundTrip | src/main/java/org/vibur/dbcp/ViburDBCPDataSource.java:363-370 | With the product taken in `long` and the getter dividing before narrowing, the stored value is `seconds * 1000` and every `int` login timeout reads back as set. |
| DataSource.ViburDBCPDataSource.SetLoginTimeout | src/main/java/org/vibur/dbcp/ViburDBCPDataSource.java:363-365 | Only the connection timeout changes, to `seconds * 1000` computed in 32-bit arithmetic. `getLoginTimeout` then gives back `seconds` whenever that product fits in an `int`. |
| DataSource.ViburDBCPDataSource.GetLoginTimeout | src/main/java/org/vibur/dbcp/ViburDBCPDataSource.java:368-370 | The connection timeout narrowed to an `int` and then divided by 1000, truncating toward zero. |
| DataSource.ViburDBCPDataSource.OnDestroy | src/main/java/org/vibur/dbcp/ViburDBCPDataSource.java:387-400 | Without a map nothing happens. Otherwise exactly the entries of the destroyed connection are closed and removed, and the rest stay in order. |
| DataSource.PurgeEntries | src/main/java/org/vibur/dbcp/ViburDBCPDataSource.java:392-399 | The iterator loop of `onDestroy` keeps the other connections' entries and closes the statements of the purged ones. |
| DataSource.PurgeSplits | src/main/java/org/vibur/dbcp/ViburDBCPDataSource.java:395 | The kept and purged entries account for every entry. An entry is purged exactly when its proxy is the destroyed connection. |
| DataSource.ViburDBCPDataSource.GetState | src/main/java/org/vibur/dbcp/ViburDBCPDataSource.java:403-405 | Returns the lifecycle state. |
| ObjectFactory.VersionedFactory.Version | src/main/java/org/vibur/dbcp/pool/ViburObjectFactory.java:29-34 | Returns the current version and changes nothing. |
| ObjectFactory.VersionedFactory.CompareAndSetVersion | src/main/java/org/vibur/dbcp/pool/ViburObjectFactory.java:36-45 | Succeeds exactly when the current version equals `expect`, and then the version is `update`. On failure the version is unchanged. |
| ObjectFactory.Cas | src/main/java/org/vibur/dbcp/pool/ViburObjectFactory.java:36-45 | One compare-and-set: success exactly on a match, with the new version on success and the old one on failure. |
| ObjectFactory.OnlyFirstOfSameReadSucceeds | src/main/java/org/vibur/dbcp/pool/ViburObjectFactory.java:36-45 | Callers that all read the same version and each try to change it: only the first succeeds, the rest fail, and the version ends at the first caller's update. |
| ObjectFactory.AllFailFrom | src/main/java/org/vibur/dbcp/pool/ViburObjectFactory.java:42-44 | Attempts that expect a version the counter no longer holds all fail and leave the version unchanged. |

## Left out

- Concurrency and atomicity, as follows.
  - Every `AtomicBoolean`/`AtomicReference` operation is a sequential check-and-set.
  - `putIfAbsent` losing a race to another thread cannot happen sequentially: `take` calls it only for a key found absent. So the uncached-holder result on that path is not reachable in the model, although `PutIfAbsent` itself states first-writer-wins.
  - Nothing is claimed about interleavings.
- StatementCache.ClhmStatementCache.Restore: requires that the holder is not AVAILABLE. Restoring a holder that was never taken, or restoring it twice, breaks the caller contract of the statement proxy. The as-written compare-and-set would then close a statement that is still cached.
- StatementCache.ClhmStatementCache.Take:
  - on a closed cache, `take` returns null (line 87) without consulting the map or invoking the target.
  - `key.getMethod()` is modelled by its name only.
- Internals of `ConcurrentLinkedHashMap`: weights, buffers and the exact moment of eviction. The map is an LRU sequence. An insertion into a full map evicts the eldest entry and then appends; the resulting state is the same as appending first and then evicting.
- Statement closing (`quietClose`, `closeStatement`): modelled as insertion into a ghost set. A failure while closing is swallowed in the source and is not modelled. `clearWarnings` is a boolean parameter.
- Logging, `logGetConnection` timing and stack traces, the log writer and `getParentLogger`: left out because they are I/O.
- Configuration loading (properties/XML lookup, stream I/O, reflective binding) and JMX registration: left out because they are I/O and reflection.
- `ViburDBCPConfig` is not part of this model.
  - Its getters are fields of `Config`.
  - The width of `connectionTimeoutInMs` is taken to be `long`.
  - The other numeric settings are unbounded integers.
  - An external data source counts only as present or absent.
- The connection pool (`ConcurrentHolderLinkedPool`), the reducer (`SamplingPoolReducer`) and `ConnectionFactory` come from outside the core. They appear only as handles that are created, started and terminated. What `take`/`tryTake` return is the parameter `reply`. `Proxy.newConnection` is not modelled: `DoGetConnection` returns the holder itself.
- The data source's `unwrap`/`isWrapperFor` and the password/username warnings are not in the modelled core.
- The insertion side of the data source's own statement map is not part of this core; only its purge and its closing in `terminate` are modelled.
- DataSource.ToUpper: upper-cases ASCII letters and the two non-ASCII characters whose upper case is an ASCII letter ('ı' and 'ſ'). Other characters are unchanged, and the default locale is not modelled. This is every character that can matter for matching the five ASCII isolation names.
- InvocationHandler.Unwrap: the message uses the class name instead of `Class.toString()`, which has an "interface "/"class " prefix.
- InvocationHandler.ClassArg: an empty argument list stands for Java's null argument array (NullPointerException). An empty non-null array would throw ArrayIndexOutOfBoundsException instead.
- InvocationHandler.LocalAnswer: `equals` with no arguments is treated the same way.
- `invoke`'s trace logging and `getExceptionListener` are not modelled.
- The factory's connection creation, validation and destruction (`PoolObjectFactory`) are not in the modelled core. Only its version counter is.

## Findings

| source | as written | input that shows it | evidently intended | confidence | as-written member | corrected member |
|---|---|---|---|---|---|---|
| src/main/java/org/vibur/dbcp/ViburDBCPDataSource.java:363-370 | `setLoginTimeout` computes `seconds * 1000` in 32-bit `int` arithmetic before widening it to the `long` connection timeout, and `getLoginTimeout` narrows the `long` with `(int)` before dividing by 1000 | `setLoginTimeout(2147484)` stores -2147483296 ms, and `getLoginTimeout()` then returns -2147483 | both conversions are done in `long`: the setter stores `seconds * 1000L` and the getter returns `(int) (ms / 1000)`, so every `int` login timeout round-trips; changing only the setter is not enough (`DataSource.LongProductAloneOverflows`) | not executed | DataSource.LoginTimeoutOverflow | DataSource.LoginTimeoutRoundTrip |
