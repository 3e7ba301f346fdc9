/** The observer lists of the page-side API: `Signal` of
    themes/javascript-api/common/mod.ts, and the guarded copies `Signal` of
    crates/greeters/src/resources/greetd.js and `LightDMSignal` of
    crates/greeters/src/resources/lightdm.js, which ignore arguments that
    are not functions. A callback is known by its identity; calling one is
    recorded in an invocation log. */
module JsSignal {

  /** The identity of a function value (`!==` compares identities). */
  type Callback = nat

  /** An argument given to the guarded lists: a function, or any other
      value. */
  datatype JsArg = Function(callback: Callback) | NotAFunction

  /** One call of a callback with the emitted arguments. */
  datatype Invocation = Invocation(callback: Callback, args: seq<string>)

  /** `callbacks.filter((cb) => cb !== callback)`. */
  function Without(callbacks: seq<Callback>, callback: Callback): seq<Callback> {
    if callbacks == [] then []
    else (if callbacks[0] == callback then [] else [callbacks[0]]) + Without(callbacks[1..], callback)
  }

  /** The filter keeps exactly the other callbacks. */
  lemma {:induction false} WithoutMembers(callbacks: seq<Callback>, callback: Callback, c: Callback)
    ensures c in Without(callbacks, callback) <==> c in callbacks && c != callback
  {
    if callbacks != [] {
      WithoutMembers(callbacks[1..], callback, c);
      assert callbacks == [callbacks[0]] + callbacks[1..];
    }
  }

  /** The filter removes every occurrence of the callback and keeps every
      occurrence of the others. */
  lemma {:induction false} WithoutCounts(callbacks: seq<Callback>, callback: Callback)
    ensures multiset(Without(callbacks, callback)) == multiset(callbacks)[callback := 0]
  {
    if callbacks != [] {
      WithoutCounts(callbacks[1..], callback);
      assert callbacks == [callbacks[0]] + callbacks[1..];
      assert multiset(callbacks) == multiset([callbacks[0]]) + multiset(callbacks[1..]);
    }
  }

  /** Filtering a concatenation filters each part, so the remaining
      callbacks keep their order. */
  lemma {:induction false} WithoutAppend(a: seq<Callback>, b: seq<Callback>, callback: Callback)
    ensures Without(a + b, callback) == Without(a, callback) + Without(b, callback)
  {
    if a != [] {
      WithoutAppend(a[1..], b, callback);
      assert (a + b)[1..] == a[1..] + b;
    } else {
      assert a + b == b;
    }
  }

  /** Disconnecting a callback that is not connected leaves the list as it
      is. */
  lemma {:induction false} WithoutAbsent(callbacks: seq<Callback>, callback: Callback)
    requires callback !in callbacks
    ensures Without(callbacks, callback) == callbacks
  {
    if callbacks != [] {
      WithoutAbsent(callbacks[1..], callback);
      assert callbacks == [callbacks[0]] + callbacks[1..];
    }
  }

  /** `disconnect` undoes a `connect` of a callback that was not yet
      connected, and after a `disconnect` a second one changes nothing. */
  lemma DisconnectUndoesConnect(callbacks: seq<Callback>, callback: Callback)
    ensures callback !in callbacks ==> Without(callbacks + [callback], callback) == callbacks
    ensures Without(Without(callbacks, callback), callback) == Without(callbacks, callback)
  {
    WithoutAppend(callbacks, [callback], callback);
    assert Without([callback], callback) == [];
    if callback !in callbacks {
      WithoutAbsent(callbacks, callback);
    }
    WithoutMembers(callbacks, callback, callback);
    WithoutAbsent(Without(callbacks, callback), callback);
  }

  /** The calls one emission makes: every callback in order, each with the
      same arguments. */
  function Emission(callbacks: seq<Callback>, args: seq<string>): (r: seq<Invocation>)
    ensures |r| == |callbacks|
    ensures forall i :: 0 <= i < |r| ==> r[i] == Invocation(callbacks[i], args)
  {
    seq(|callbacks|, i requires 0 <= i < |callbacks| => Invocation(callbacks[i], args))
  }

  /** Where a `forEach` over the callbacks stops: the index of the first
      callback that throws (`throwing`), or the length when none does. */
  function ThrowAt(callbacks: seq<Callback>, throwing: set<Callback>): (k: nat)
    ensures k <= |callbacks|
    ensures forall j :: 0 <= j < k ==> callbacks[j] !in throwing
    ensures k < |callbacks| ==> callbacks[k] in throwing
  {
    if callbacks == [] then 0
    else if callbacks[0] in throwing then 0
    else 1 + ThrowAt(callbacks[1..], throwing)
  }

  /** The callbacks an emission calls: all of them up to and including the
      first one that throws; the exception then leaves `_emit`. */
  function Reached(callbacks: seq<Callback>, throwing: set<Callback>): seq<Callback> {
    var k := ThrowAt(callbacks, throwing);
    if k < |callbacks| then callbacks[..k + 1] else callbacks
  }

  /** Without a throwing callback every callback is called; a throwing one
      is the last one called, and the callbacks before it are called. */
  lemma ReachedMeaning(callbacks: seq<Callback>, throwing: set<Callback>)
    ensures (forall j :: 0 <= j < |callbacks| ==> callbacks[j] !in throwing) ==> Reached(callbacks, throwing) == callbacks
    ensures forall i :: 0 <= i < |callbacks| && callbacks[i] in throwing ==>
      |Reached(callbacks, throwing)| <= i + 1
    ensures Reached(callbacks, throwing) <= callbacks
    ensures forall i :: 0 <= i < |Reached(callbacks, throwing)| - 1 ==> Reached(callbacks, throwing)[i] !in throwing
  {
  }

  /** A duplicate registration is called once per registration. */
  lemma DuplicatesCalledTwice(c: Callback, args: seq<string>)
    ensures Emission([c, c], args) == [Invocation(c, args), Invocation(c, args)]
  {
  }

  /** `Signal` of common/mod.ts. */
  class Signal {
    var callbacks: seq<Callback>
    /** The calls made so far, oldest first. */
    var invocations: seq<Invocation>

    constructor ()
      ensures callbacks == [] && invocations == []
    {
      callbacks := [];
      invocations := [];
    }

    /** `connect`: appends, keeping duplicates. */
    method Connect(callback: Callback)
      modifies this
      ensures callbacks == old(callbacks) + [callback]
      ensures invocations == old(invocations)
    {
      callbacks := callbacks + [callback];
    }

    /** `disconnect`: keeps the callbacks other than this one, in order. */
    method Disconnect(callback: Callback)
      modifies this
      ensures callbacks == Without(old(callbacks), callback)
      ensures invocations == old(invocations)
    {
      callbacks := Without(callbacks, callback);
    }

    /** `_emit`: calls the callbacks in registration order with the same
        arguments; a callback that throws (`throwing`) ends the `forEach`,
        and `threw` says the exception left `_emit`. */
    method Emit(args: seq<string>, throwing: set<Callback>) returns (threw: bool)
      modifies this
      ensures callbacks == old(callbacks)
      ensures invocations == old(invocations) + Emission(Reached(callbacks, throwing), args)
      ensures threw <==> ThrowAt(callbacks, throwing) < |callbacks|
    {
      ghost var k := ThrowAt(callbacks, throwing);
      threw := false;
      var i := 0;
      while i < |callbacks| && !threw
        invariant 0 <= i <= |callbacks| && callbacks == old(callbacks)
        invariant !threw ==> i <= k
        invariant threw ==> i == k + 1
        invariant invocations == old(invocations) + Emission(callbacks[..i], args)
      {
        assert Emission(callbacks[..i + 1], args) == Emission(callbacks[..i], args) + [Invocation(callbacks[i], args)];
        invocations := invocations + [Invocation(callbacks[i], args)];
        if callbacks[i] in throwing {
          threw := true;
        }
        i := i + 1;
      }
      if !threw {
        assert callbacks[..i] == callbacks;
      }
    }
  }

  /** `Signal` of greetd.js and `LightDMSignal` of lightdm.js: the same
      list, with `connect` and `disconnect` ignoring anything that is not a
      function. */
  class GuardedSignal {
    const inner: Signal

    constructor ()
      ensures fresh(inner)
      ensures inner.callbacks == [] && inner.invocations == []
    {
      inner := new Signal();
    }

    method Connect(arg: JsArg)
      modifies inner
      ensures inner.callbacks == if arg.Function? then old(inner.callbacks) + [arg.callback] else old(inner.callbacks)
      ensures inner.invocations == old(inner.invocations)
    {
      if arg.Function? {
        inner.Connect(arg.callback);
      }
    }

    method Disconnect(arg: JsArg)
      modifies inner
      ensures inner.callbacks == if arg.Function? then Without(old(inner.callbacks), arg.callback) else old(inner.callbacks)
      ensures inner.invocations == old(inner.invocations)
    {
      if arg.Function? {
        inner.Disconnect(arg.callback);
      }
    }

    method Emit(args: seq<string>, throwing: set<Callback>) returns (threw: bool)
      modifies inner
      ensures inner.callbacks == old(inner.callbacks)
      ensures inner.invocations == old(inner.invocations) + Emission(Reached(inner.callbacks, throwing), args)
      ensures threw <==> ThrowAt(inner.callbacks, throwing) < |inner.callbacks|
    {
      threw := inner.Emit(args, throwing);
    }
  }
}
