/**
 * The version counter of the connection factory. The factory's version
 * is the generation stamp of every connection it creates; a connection
 * whose stamp differs from the live version is destroyed instead of
 * reused. The version is read with `version()` and changed only by an
 * atomic compare-and-set, modelled here as a sequential check-and-set.
 */
module ObjectFactory {
  import opened JavaLang

  /** The outcome of one compare-and-set: whether it succeeded and the version afterwards. */
  datatype CasResult = CasResult(ok: bool, version: int32)

  /** One compare-and-set on a counter holding `current`. */
  function Cas(current: int32, expected: int32, update: int32): (r: CasResult)
    ensures r.ok <==> current == expected
    ensures r.ok ==> r.version == update
    ensures !r.ok ==> r.version == current
  {
    if current == expected then CasResult(true, update) else CasResult(false, current)
  }

  /**
   * Attempts made one after another on a counter starting at `start`:
   * the success flag of each attempt, in order, and the final version.
   */
  function RunAll(start: int32, attempts: seq<(int32, int32)>): (r: (seq<bool>, int32))
    ensures |r.0| == |attempts|
    decreases |attempts|
  {
    if attempts == [] then ([], start)
    else
      var step := Cas(start, attempts[0].0, attempts[0].1);
      var rest := RunAll(step.version, attempts[1..]);
      ([step.ok] + rest.0, rest.1)
  }

  /**
   * Several callers that all read version `v` and each try to move it
   * to a new value: exactly the first one succeeds, every later one sees
   * a changed version and fails, and the counter ends at the first
   * caller's update.
   */
  lemma {:induction false} OnlyFirstOfSameReadSucceeds(v: int32, attempts: seq<(int32, int32)>)
    requires attempts != []
    requires forall i :: 0 <= i < |attempts| ==> attempts[i].0 == v && attempts[i].1 != v
    ensures RunAll(v, attempts).0[0]
    ensures forall i :: 0 < i < |attempts| ==> !RunAll(v, attempts).0[i]
    ensures RunAll(v, attempts).1 == attempts[0].1
  {
    var u := attempts[0].1;
    AllFailFrom(u, v, attempts[1..]);
  }

  /** Attempts that all expect `v` fail on a counter that no longer holds `v`, and change nothing. */
  lemma {:induction false} AllFailFrom(current: int32, v: int32, attempts: seq<(int32, int32)>)
    requires current != v
    requires forall i :: 0 <= i < |attempts| ==> attempts[i].0 == v
    ensures forall i :: 0 <= i < |attempts| ==> !RunAll(current, attempts).0[i]
    ensures RunAll(current, attempts).1 == current
    decreases |attempts|
  {
    if attempts != [] {
      AllFailFrom(current, v, attempts[1..]);
      var rest := RunAll(current, attempts[1..]);
      assert RunAll(current, attempts).0 == [false] + rest.0;
    }
  }

  /** The version state of a connection factory. */
  class VersionedFactory {
    var version: int32

    constructor (initial: int32)
      ensures version == initial
    {
      version := initial;
    }

    /** `version()`: the current version; nothing changes. */
    method Version() returns (v: int32)
      ensures v == version
    {
      v := version;
    }

    /**
     * `compareAndSetVersion(expect, update)`: succeeds exactly when the
     * current version equals `expect`, and then the version is `update`;
     * on failure the version is unchanged.
     */
    method CompareAndSetVersion(expected: int32, update: int32) returns (ok: bool)
      modifies this
      ensures ok <==> old(version) == expected
      ensures ok ==> version == update
      ensures !ok ==> version == old(version)
      ensures Cas(old(version), expected, update) == CasResult(ok, version)
    {
      if version == expected {
        version := update;
        ok := true;
      } else {
        ok := false;
      }
    }
  }
}
