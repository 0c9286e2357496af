/**
 * The dynamic-proxy invocation handler every JDBC proxy of the pool shares:
 * it answers `equals`, `hashCode` and `toString` itself, implements the
 * `java.sql.Wrapper` methods `unwrap` and `isWrapperFor`, and forwards every
 * other call to the real object, recording the exceptions the real object
 * throws in an exception listener (all but transient connection failures).
 *
 * Reflection is abstracted: the proxied object is a `Target` value (its
 * reference, the names of the classes and interfaces it is an instance of,
 * and its `toString`), and `Method.invoke` on it is the function
 * `invokeTarget`, which returns a value or throws the cause of the
 * `InvocationTargetException`.
 */
module InvocationHandler {
  import opened JavaLang

  /** The real object behind a proxy. */
  datatype Target = Target(ref: ObjRef, classes: set<string>, display: string)

  /** How `invoke` handles a call, chosen by the method name alone. */
  datatype Route = EqualsCall | HashCodeCall | ToStringCall | UnwrapCall | IsWrapperForCall | Forward

  /** The method name each handled route answers to. */
  function SpecialName(route: Route): (name: string)
    requires route != Forward
  {
    match route
    case EqualsCall => "equals"
    case HashCodeCall => "hashCode"
    case ToStringCall => "toString"
    case UnwrapCall => "unwrap"
    case IsWrapperForCall => "isWrapperFor"
  }

  /** The route of a method name: one of the five special names, or forwarding. */
  function RouteOf(methodName: string): (r: Route)
    ensures r != Forward ==> SpecialName(r) == methodName
  {
    if methodName == "equals" then EqualsCall
    else if methodName == "hashCode" then HashCodeCall
    else if methodName == "toString" then ToStringCall
    else if methodName == "unwrap" then UnwrapCall
    else if methodName == "isWrapperFor" then IsWrapperForCall
    else Forward
  }

  /** Each special name routes to its own route, so a call is forwarded exactly when its name is none of them. */
  lemma RouteRoundTrip(route: Route)
    requires route != Forward
    ensures RouteOf(SpecialName(route)) == route
  {
  }

  lemma ForwardedExactly(methodName: string)
    ensures RouteOf(methodName) == Forward <==>
      forall route :: route != Forward ==> SpecialName(route) != methodName
  {
    if RouteOf(methodName) != Forward {
      assert SpecialName(RouteOf(methodName)) == methodName;
    } else {
      forall route | route != Forward ensures SpecialName(route) != methodName {
        RouteRoundTrip(route);
      }
    }
  }

  /**
   * `(Class<?>) args[0]`: the first argument as a class, `None` for a null
   * one. A call without arguments (Java passes a null array) fails with a
   * NullPointerException, an argument that is not a class with a
   * ClassCastException.
   */
  function ClassArg(args: seq<Value>): (r: Outcome<Option<string>>)
    ensures args == [] ==> r == Threw(NullPointerException)
    ensures args != [] && args[0] == Null ==> r == Returned(None)
    ensures args != [] && args[0].ClassValue? ==> r == Returned(Some(args[0].name))
    ensures r.Threw? <==> args == [] || !(args[0].Null? || args[0].ClassValue?)
  {
    if args == [] then Threw(NullPointerException)
    else match args[0]
      case Null => Returned(None)
      case ClassValue(name) => Returned(Some(name))
      case _ => Threw(ClassCastException)
  }

  /** `isWrapperFor(iface)`: `iface.isInstance(target)`; a null class throws. */
  function IsWrapperFor(target: Target, iface: Option<string>): (r: Outcome<bool>)
    ensures r.Threw? <==> iface.None?
    ensures r.Threw? ==> r.cause == NullPointerException
    ensures r == Returned(true) <==> iface.Some? && iface.value in target.classes
  {
    match iface
    case None => Threw(NullPointerException)
    case Some(name) => Returned(name in target.classes)
  }

  /** `unwrap(iface)`: the target itself exactly when it is an instance of `iface`, otherwise an SQLException. */
  function Unwrap(target: Target, iface: Option<string>): (r: Outcome<Value>)
    ensures r.Returned? <==> IsWrapperFor(target, iface) == Returned(true)
    ensures r.Returned? ==> r.value == Obj(target.ref)
    ensures IsWrapperFor(target, iface).Threw? ==> r == Threw(IsWrapperFor(target, iface).cause)
    ensures IsWrapperFor(target, iface) == Returned(false) ==> r == Threw(SQLException("not a wrapper for " + iface.value))
  {
    match IsWrapperFor(target, iface)
    case Threw(cause) => Threw(cause)
    case Returned(isWrapper) =>
      if isWrapper then Returned(Obj(target.ref)) else Threw(SQLException("not a wrapper for " + iface.value))
  }

  /**
   * The answer of the handler itself to a call it does not forward. `equals`
   * is identity of the proxy with the argument, `hashCode` the proxy's
   * identity hash, `toString` names the target; none of them looks at
   * anything of the target but its `toString`.
   */
  function LocalAnswer(route: Route, target: Target, proxy: ObjRef, args: seq<Value>): (r: Outcome<Value>)
    requires route != Forward
    ensures route == EqualsCall && args != [] ==> r == Returned(Bool(args[0] == Obj(proxy)))
    ensures route == EqualsCall && args == [] ==> r == Threw(NullPointerException)
    ensures route == HashCodeCall ==> r == Returned(Int(proxy.identityHash as int))
    ensures route == ToStringCall ==> r == Returned(Str("Proxy for: " + target.display))
    ensures route == UnwrapCall ==>
      r == (if ClassArg(args).Threw? then Threw(ClassArg(args).cause) else Unwrap(target, ClassArg(args).value))
    ensures route == IsWrapperForCall && ClassArg(args).Returned? ==>
      match IsWrapperFor(target, ClassArg(args).value)
      case Returned(b) => r == Returned(Bool(b))
      case Threw(cause) => r == Threw(cause)
  {
    match route
    case EqualsCall => if args == [] then Threw(NullPointerException) else Returned(Bool(args[0] == Obj(proxy)))
    case HashCodeCall => Returned(Int(proxy.identityHash as int))
    case ToStringCall => Returned(Str("Proxy for: " + target.display))
    case UnwrapCall =>
      (match ClassArg(args)
       case Threw(cause) => Threw(cause)
       case Returned(iface) => Unwrap(target, iface))
    case IsWrapperForCall =>
      match ClassArg(args)
      case Threw(cause) => Threw(cause)
      case Returned(iface) =>
        match IsWrapperFor(target, iface)
        case Threw(cause) => Threw(cause)
        case Returned(b) => Returned(Bool(b))
  }

  /** `equals` on a proxy holds exactly for the proxy itself. */
  lemma EqualsIsProxyIdentity(target: Target, proxy: ObjRef, other: Value)
    ensures LocalAnswer(EqualsCall, target, proxy, [other]) == Returned(Bool(true)) <==> other == Obj(proxy)
  {
  }

  /** Whether a failure of the target is remembered: every cause but a transient connection exception. */
  predicate Remembered(cause: Throwable)
  {
    !cause.SQLTransientConnectionException?
  }

  /** What the listener gains from the outcome of a forwarded call. */
  function Recorded(r: Outcome<Value>): (log: seq<Throwable>)
    ensures r.Returned? ==> log == []
    ensures r.Threw? && Remembered(r.cause) ==> log == [r.cause]
    ensures r.Threw? && !Remembered(r.cause) ==> log == []
  {
    if r.Threw? && Remembered(r.cause) then [r.cause] else []
  }

  /** The collector of the exceptions thrown by proxied objects. */
  class ExceptionListener {
    var exceptions: seq<Throwable>

    constructor ()
      ensures exceptions == []
    {
      exceptions := [];
    }

    /** `addException(t)` */
    method AddException(t: Throwable)
      modifies this
      ensures exceptions == old(exceptions) + [t]
    {
      exceptions := exceptions + [t];
    }
  }

  class AbstractInvocationHandler {
    const target: Target
    const exceptionListener: ExceptionListener
    /** `Method.invoke` on the target: the result, or the cause of the InvocationTargetException. */
    const invokeTarget: (string, seq<Value>) -> Outcome<Value>

    constructor (target: Target, exceptionListener: ExceptionListener, invokeTarget: (string, seq<Value>) -> Outcome<Value>)
      ensures this.target == target && this.exceptionListener == exceptionListener
      ensures this.invokeTarget == invokeTarget
    {
      this.target := target;
      this.exceptionListener := exceptionListener;
      this.invokeTarget := invokeTarget;
    }

    /** `new AbstractInvocationHandler(target, exceptionListener)`: a null target or listener is refused. */
    static method Create(target: Option<Target>, exceptionListener: ExceptionListener?,
                         invokeTarget: (string, seq<Value>) -> Outcome<Value>)
      returns (r: Outcome<AbstractInvocationHandler>)
      ensures r.Threw? <==> target.None? || exceptionListener == null
      ensures r.Threw? ==> r.cause == NullPointerException
      ensures r.Returned? ==>
        && fresh(r.value) && r.value.target == target.value && r.value.exceptionListener == exceptionListener
        && r.value.invokeTarget == invokeTarget
    {
      if target.None? || exceptionListener == null {
        return Threw(NullPointerException);
      }
      var h := new AbstractInvocationHandler(target.value, exceptionListener, invokeTarget);
      return Returned(h);
    }

    /**
     * `invoke(proxy, method, args)`: a call with one of the five special
     * names gets the handler's own answer and never reaches the target or
     * the listener; any other call goes to `customInvoke`.
     */
    method Invoke(proxy: ObjRef, methodName: string, args: seq<Value>) returns (r: Outcome<Value>)
      modifies exceptionListener
      ensures RouteOf(methodName) != Forward ==>
        r == LocalAnswer(RouteOf(methodName), target, proxy, args)
        && exceptionListener.exceptions == old(exceptionListener.exceptions)
      ensures RouteOf(methodName) == Forward ==>
        r == invokeTarget(methodName, args)
        && exceptionListener.exceptions == old(exceptionListener.exceptions) + Recorded(r)
    {
      var route := RouteOf(methodName);
      if route != Forward {
        return LocalAnswer(route, target, proxy, args);
      }
      r := CustomInvoke(proxy, methodName, args);
    }

    /** `customInvoke(proxy, method, args)`: by default the call is passed to the target. */
    method CustomInvoke(proxy: ObjRef, methodName: string, args: seq<Value>) returns (r: Outcome<Value>)
      modifies exceptionListener
      ensures r == invokeTarget(methodName, args)
      ensures exceptionListener.exceptions == old(exceptionListener.exceptions) + Recorded(r)
    {
      r := TargetInvoke(methodName, args);
    }

    /**
     * `targetInvoke(method, args)`: the real call on the target. Its result
     * is returned with the listener untouched; a failure is rethrown, and
     * its cause is handed to the listener exactly once unless it is a
     * transient connection exception.
     */
    method TargetInvoke(methodName: string, args: seq<Value>) returns (r: Outcome<Value>)
      modifies exceptionListener
      ensures r == invokeTarget(methodName, args)
      ensures r.Returned? ==> exceptionListener.exceptions == old(exceptionListener.exceptions)
      ensures r.Threw? && Remembered(r.cause) ==>
        exceptionListener.exceptions == old(exceptionListener.exceptions) + [r.cause]
      ensures r.Threw? && !Remembered(r.cause) ==>
        exceptionListener.exceptions == old(exceptionListener.exceptions)
    {
      r := invokeTarget(methodName, args);
      if r.Threw? {
        var cause := r.cause;
        if !cause.SQLTransientConnectionException? {
          exceptionListener.AddException(cause);
        }
      }
    }

  }
}
