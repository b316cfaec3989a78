/**
 * The process-wide, one-time loader of the YouTube iframe API
 * (`loadYouTubeAPI` and the `window.onYouTubeIframeAPIReady` handler it
 * installs, in src/components/VideoPlayer.jsx).
 *
 * Promises are modelled by waiter ids: a request either resolves at once
 * (the id is appended to `resolved`) or is queued in `apiReadyCallbacks`
 * until the handler runs. The script tag is modelled by a counter.
 */
module ApiLoader {

  /** Identifies one caller of `loadYouTubeAPI`, i.e. one promise's `resolve`. */
  type WaiterId = nat

  class Loader {
    /** `window.YT && window.YT.Player`: the runtime has been loaded. */
    var runtimePresent: bool
    /** The module-level `isApiLoading` flag. */
    var isApiLoading: bool
    /** The module-level `apiReadyCallbacks` array. */
    var apiReadyCallbacks: seq<WaiterId>
    /** `window.onYouTubeIframeAPIReady` has been assigned. */
    var handlerInstalled: bool
    /** Number of `<script src=".../iframe_api">` tags inserted into the document. */
    var scriptInserts: nat
    /** The promises resolved so far, in the order they were resolved. */
    var resolved: seq<WaiterId>
    /** Every request made so far, in order. */
    ghost var requests: seq<WaiterId>

    /**
     * The loader's invariant: at most one script tag, the queue only while a
     * load is in flight, and every request either resolved or still queued,
     * in request order.
     */
    ghost predicate Valid()
      reads this
    {
      && scriptInserts <= 1
      && (handlerInstalled <==> scriptInserts == 1)
      && (isApiLoading ==> handlerInstalled)
      && (!runtimePresent ==> (isApiLoading <==> handlerInstalled))
      && (apiReadyCallbacks != [] ==> isApiLoading)
      && requests == resolved + apiReadyCallbacks
    }

    /**
     * The state between two events: once the runtime is present no load is
     * in flight, so nothing is left waiting. It is broken only while the
     * runtime is calling the readiness handler.
     */
    ghost predicate Settled()
      reads this
    {
      Valid() && (runtimePresent ==> !isApiLoading)
    }

    /** A page on which the runtime may already be present (loaded by other means). */
    constructor (runtimePresent: bool)
      ensures Settled()
      ensures this.runtimePresent == runtimePresent
      ensures !isApiLoading && apiReadyCallbacks == [] && !handlerInstalled
      ensures scriptInserts == 0 && resolved == [] && requests == []
    {
      this.runtimePresent := runtimePresent;
      isApiLoading := false;
      apiReadyCallbacks := [];
      handlerInstalled := false;
      scriptInserts := 0;
      resolved := [];
      requests := [];
    }

    /**
     * `loadYouTubeAPI()` called on behalf of waiter `w`; `immediate` tells
     * whether the returned promise is already resolved.
     */
    method LoadYouTubeAPI(w: WaiterId) returns (immediate: bool)
      requires Settled()
      modifies this
      ensures Settled()
      ensures requests == old(requests) + [w]
      ensures runtimePresent == old(runtimePresent)
      ensures immediate <==> old(runtimePresent)
      // Runtime already there: resolve at once, touch nothing else.
      ensures old(runtimePresent) ==>
        && resolved == old(resolved) + [w]
        && isApiLoading == old(isApiLoading) && apiReadyCallbacks == old(apiReadyCallbacks)
        && scriptInserts == old(scriptInserts) && handlerInstalled == old(handlerInstalled)
      // Load in flight: only enqueue.
      ensures !old(runtimePresent) && old(isApiLoading) ==>
        && apiReadyCallbacks == old(apiReadyCallbacks) + [w]
        && isApiLoading && resolved == old(resolved)
        && scriptInserts == old(scriptInserts) && handlerInstalled == old(handlerInstalled)
      // First request: start the load with exactly one script tag.
      ensures !old(runtimePresent) && !old(isApiLoading) ==>
        && apiReadyCallbacks == old(apiReadyCallbacks) + [w]
        && isApiLoading && resolved == old(resolved)
        && old(scriptInserts) == 0 && scriptInserts == 1 && handlerInstalled
    {
      requests := requests + [w];
      if runtimePresent {
        resolved := resolved + [w];
        return true;
      }
      if isApiLoading {
        apiReadyCallbacks := apiReadyCallbacks + [w];
        return false;
      }
      isApiLoading := true;
      apiReadyCallbacks := apiReadyCallbacks + [w];
      scriptInserts := scriptInserts + 1;
      handlerInstalled := true;
      return false;
    }

    /**
     * The body of `window.onYouTubeIframeAPIReady`: clear the flag, resolve
     * every queued waiter in order, empty the queue. The runtime calls it
     * only once it is present.
     */
    method OnYouTubeIframeAPIReady()
      requires Valid() && runtimePresent && handlerInstalled
      modifies this
      ensures Settled()
      ensures !isApiLoading && apiReadyCallbacks == []
      ensures resolved == old(resolved) + old(apiReadyCallbacks)
      ensures requests == old(requests) && runtimePresent
      ensures scriptInserts == old(scriptInserts) && handlerInstalled
    {
      isApiLoading := false;
      var i := 0;
      while i < |apiReadyCallbacks|
        invariant 0 <= i <= |apiReadyCallbacks|
        invariant apiReadyCallbacks == old(apiReadyCallbacks)
        invariant resolved == old(resolved) + apiReadyCallbacks[..i]
        invariant !isApiLoading && runtimePresent && handlerInstalled
        invariant scriptInserts == old(scriptInserts) && requests == old(requests)
      {
        resolved := resolved + [apiReadyCallbacks[i]];
        i := i + 1;
      }
      assert apiReadyCallbacks[..i] == apiReadyCallbacks;
      apiReadyCallbacks := [];
    }

    /**
     * The inserted script finishes loading: `window.YT.Player` appears and
     * the runtime invokes the handler if one was installed. Afterwards every
     * request made so far has been resolved.
     */
    method RuntimeLoaded()
      requires Settled()
      modifies this
      ensures Settled()
      ensures runtimePresent && !isApiLoading && apiReadyCallbacks == []
      ensures resolved == old(resolved) + old(apiReadyCallbacks)
      ensures resolved == requests && requests == old(requests)
      ensures scriptInserts == old(scriptInserts)
    {
      runtimePresent := true;
      if handlerInstalled {
        OnYouTubeIframeAPIReady();
      }
    }
  }

  /**
   * Three players mount before the runtime arrives: one script tag, all
   * three resolved in request order, and a repeated readiness signal
   * resolves nothing more.
   */
  method ConcurrentRequests()
  {
    var loader := new Loader(false);
    var a := loader.LoadYouTubeAPI(1);
    var b := loader.LoadYouTubeAPI(2);
    var c := loader.LoadYouTubeAPI(3);
    assert !a && !b && !c;
    assert loader.scriptInserts == 1 && loader.apiReadyCallbacks == [1, 2, 3];
    loader.RuntimeLoaded();
    assert loader.resolved == [1, 2, 3];
    loader.OnYouTubeIframeAPIReady();
    assert loader.resolved == [1, 2, 3];
    var d := loader.LoadYouTubeAPI(4);
    assert d && loader.resolved == [1, 2, 3, 4] && loader.scriptInserts == 1;
  }
}
