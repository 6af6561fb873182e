/** The HTTP runner: forwarding of headers, and the one status line of a proxied request. */
module HttpRunner {
  import opened ByteStreams
  import opened Responses

  // ---------------------------------------------------------------- headers

  /** A Go header: a mutable map whose values are slices, that is, references to arrays. */
  class Header {
    var values: map<string, array<string>>

    constructor ()
      ensures values == map[]
    {
      values := map[];
    }

    ghost function Contents(): map<string, seq<string>>
      reads this, values.Values
    {
      map k | k in values :: values[k][..]
    }

    /** `Get`, which looks under the canonical form of the key. */
    method Get(key: string, canon: string -> string) returns (v: string)
      ensures v == FirstValue(Contents(), canon(key))
    {
      var k := canon(key);
      if k in values && values[k].Length > 0 {
        return values[k][0];
      }
      return "";
    }

    /** `Set`: one value, in a slice of its own, under the canonical form of the key. */
    method Set(key: string, v: string, canon: string -> string)
      modifies this
      ensures values.Keys == old(values.Keys) + {canon(key)}
      ensures fresh(values[canon(key)]) && values[canon(key)][..] == [v]
      ensures forall k :: k in old(values) && k != canon(key) ==> values[k] == old(values[k])
    {
      var slice := new string[1](_ => v);
      values := values[canon(key) := slice];
    }
  }

  /** The first value of a key, or the empty string. */
  function FirstValue(h: map<string, seq<string>>, key: string): string {
    if key in h && h[key] != [] then h[key][0] else ""
  }

  /** `make` and `copy`: the same strings in a new array. */
  method CloneSlice(v: array<string>) returns (clone: array<string>)
    ensures fresh(clone) && clone[..] == v[..]
  {
    clone := new string[v.Length](_ => "");
    forall i | 0 <= i < v.Length {
      clone[i] := v[i];
    }
  }

  /** No slice of `h` is one of `other`'s: writing through one header never shows in the other. */
  ghost predicate SharesNothing(h: Header, other: Header)
    reads h, other
  {
    forall k, k' :: k in h.values && k' in other.values ==> h.values[k] != other.values[k']
  }

  /** No two of these keys share a slice. */
  ghost predicate OwnSlices(h: Header, keys: set<string>)
    reads h
  {
    && keys <= h.values.Keys
    && forall k, k' :: k in keys && k' in keys && k != k' ==> h.values[k] != h.values[k']
  }

  /** One round of `copyHeaders`. */
  method CopyHeader(destination: Header, k: string, v: array<string>)
    modifies destination
    ensures destination.values.Keys == old(destination.values.Keys) + {k}
    ensures fresh(destination.values[k]) && destination.values[k][..] == v[..]
    ensures forall other :: other in old(destination.values) && other != k ==>
              destination.values[other] == old(destination.values[other])
  {
    var vClone := CloneSlice(v);
    destination.values := destination.values[k := vClone];
  }

  /** `copyHeaders`, in whatever order the map is ranged over: the destination overlaid with the source, every
      copied slice new and none of them shared between two keys. */
  method CopyHeaders(destination: Header, source: Header)
    requires destination != source
    modifies destination
    ensures destination.Contents() == old(destination.Contents()) + source.Contents()
    ensures destination.values.Keys == old(destination.values.Keys) + source.values.Keys
    ensures forall k :: k in source.values ==> fresh(destination.values[k])
    ensures OwnSlices(destination, source.values.Keys)
    ensures forall k :: k in old(destination.values) && k !in source.values ==>
              destination.values[k] == old(destination.values[k])
  {
    var from := source.values;
    ghost var before := destination.values;
    var todo := from.Keys;
    ghost var done: set<string> := {};
    while todo != {}
      invariant source.values == from && done + todo == from.Keys
      invariant destination.values.Keys == before.Keys + done
      invariant forall k :: k in done ==> fresh(destination.values[k]) && destination.values[k][..] == from[k][..]
      invariant OwnSlices(destination, done)
      invariant forall k :: k in before && k !in done ==> destination.values[k] == before[k]
      decreases todo
    {
      var k :| k in todo;
      CopyHeader(destination, k, from[k]);
      todo, done := todo - {k}, done + {k};
    }
    Overlaid(destination, old(destination.Contents()), source.Contents());
  }

  /** A header that agrees with `b` where that is defined, and with `a` elsewhere, holds `a + b`. */
  lemma Overlaid(h: Header, a: map<string, seq<string>>, b: map<string, seq<string>>)
    requires h.values.Keys == a.Keys + b.Keys
    requires forall k :: k in h.values ==> h.values[k][..] == if k in b then b[k] else a[k]
    ensures h.Contents() == a + b
  {
  }

  function CanonKeys(keys: set<string>, canon: string -> string): set<string> {
    set h | h in keys :: canon(h)
  }

  lemma NoKeys(canon: string -> string)
    ensures CanonKeys({}, canon) == {}
  {
  }

  lemma OneMoreKey(keys: set<string>, h: string, canon: string -> string)
    ensures CanonKeys(keys + {h}, canon) == CanonKeys(keys, canon) + {canon(h)}
  {
  }

  lemma HoldsFirstValues(h: Header, all: map<string, seq<string>>, canon: string -> string)
    requires h.values.Keys == CanonKeys(all.Keys, canon)
    requires forall k :: k in h.values ==> h.values[k][..] == [FirstValue(all, k)]
    ensures h.Contents() == FirstValues(all, canon)
  {
    hide CanonKeys, FirstValue;
  }

  /** What the `Set` loop makes of incoming headers: one value for every canonical form of a key. */
  function FirstValues(incoming: map<string, seq<string>>, canon: string -> string): map<string, seq<string>> {
    map k | k in CanonKeys(incoming.Keys, canon) :: [FirstValue(incoming, k)]
  }

  lemma FirstValuesAre(all: map<string, seq<string>>, canon: string -> string)
    ensures FirstValues(all, canon).Keys == CanonKeys(all.Keys, canon)
    ensures forall k :: k in FirstValues(all, canon) ==>
              FirstValues(all, canon)[k] == [if k in all && all[k] != [] then all[k][0] else ""]
  {
  }

  /** One round of the loop of `Set` calls in front of `copyHeaders`. */
  method SetFirstValue(request: Header, incoming: Header, h: string, canon: string -> string)
    requires request != incoming
    modifies request
    ensures request.values.Keys == old(request.values.Keys) + {canon(h)}
    ensures fresh(request.values[canon(h)])
    ensures request.values[canon(h)][..] == [FirstValue(incoming.Contents(), canon(h))]
    ensures forall k :: k in old(request.values) && k != canon(h) ==> request.values[k] == old(request.values[k])
  {
    var v := incoming.Get(h, canon);
    request.Set(h, v, canon);
  }

  /** The loop of `Set` calls in front of `copyHeaders`: under every canonical form of an incoming key stands the first
      value found under that form. */
  method SetFirstValues(request: Header, incoming: Header, canon: string -> string)
    requires request != incoming && request.values == map[]
    modifies request
    ensures request.Contents() == FirstValues(incoming.Contents(), canon)
    ensures request.Contents().Keys == CanonKeys(incoming.Contents().Keys, canon)
    ensures var all := incoming.Contents();
            forall k :: k in request.Contents() ==>
              request.Contents()[k] == [if k in all && all[k] != [] then all[k][0] else ""]
    ensures forall k :: k in request.values ==> fresh(request.values[k])
  {
    SetEach(request, incoming, canon);
    FirstValuesAre(incoming.Contents(), canon);
  }

  method SetEach(request: Header, incoming: Header, canon: string -> string)
    requires request != incoming && request.values == map[]
    modifies request
    ensures request.Contents() == FirstValues(incoming.Contents(), canon)
    ensures forall k :: k in request.values ==> fresh(request.values[k])
  {
    hide FirstValue, CanonKeys, FirstValues;
    var todo := incoming.values.Keys;
    NoKeys(canon);
    ghost var done: set<string>, all := {}, incoming.Contents();
    while todo != {}
      invariant incoming.Contents() == all && done + todo == all.Keys
      invariant request.values.Keys == CanonKeys(done, canon)
      invariant forall k :: k in request.values ==> fresh(request.values[k])
      invariant forall k :: k in request.values ==> request.values[k][..] == [FirstValue(all, k)]
      decreases todo
    {
      var h :| h in todo;
      SetFirstValue(request, incoming, h, canon);
      OneMoreKey(done, h, canon);
      todo, done := todo - {h}, done + {h};
    }
    assert done == all.Keys;
    HoldsFirstValues(request, all, canon);
  }

  /** What the upstream request has beyond the incoming headers: an empty value for every canonical form that is not
      itself an incoming key. */
  function Extra(incoming: map<string, seq<string>>, canon: string -> string): map<string, seq<string>> {
    map k | k in CanonKeys(incoming.Keys, canon) - incoming.Keys :: [""]
  }

  /** The headers of the upstream request, a new request's empty header to begin with: the incoming ones, all values in
      order, and nothing else but `Extra`, which is empty if and only if every incoming key is also there in its
      canonical form, as it is for canonical keys; and no slice is shared. */
  method ForwardHeaders(incoming: Header, canon: string -> string) returns (request: Header)
    ensures fresh(request)
    ensures request.Contents() == incoming.Contents() + Extra(incoming.Contents(), canon)
    ensures request.Contents() == incoming.Contents() <==>
            forall h :: h in incoming.Contents() ==> canon(h) in incoming.Contents()
    ensures forall k :: k in request.values ==> fresh(request.values[k])
    ensures SharesNothing(request, incoming)
  {
    request := new Header();
    Forward(request, incoming, canon);
    OverlayIff(incoming.Contents(), canon);
  }

  /** The two loops of `Run` over the headers. */
  method Forward(request: Header, incoming: Header, canon: string -> string)
    requires request != incoming && request.values == map[]
    modifies request
    ensures request.Contents() == FirstValues(incoming.Contents(), canon) + incoming.Contents()
    ensures forall k :: k in request.values ==> fresh(request.values[k])
  {
    hide OwnSlices, CanonKeys, FirstValues;
    SetFirstValues(request, incoming, canon);
    ghost var kept := request.values;
    assert forall k :: k in kept ==> fresh(kept[k]);
    CopyHeaders(request, incoming);
  }

  /** Overlaying what the `Set` loop leaves behind with all incoming headers adds exactly `Extra` to them, and that is
      nothing if and only if every key is also there in canonical form. */
  lemma OverlayIff(incoming: map<string, seq<string>>, canon: string -> string)
    ensures FirstValues(incoming, canon) + incoming == incoming + Extra(incoming, canon)
    ensures incoming + Extra(incoming, canon) == incoming <==> forall h :: h in incoming ==> canon(h) in incoming
  {
    var all, extra := incoming + Extra(incoming, canon), Extra(incoming, canon);
    assert all.Keys == incoming.Keys + extra.Keys;
    if all == incoming {
      forall h | h in incoming ensures canon(h) in incoming {
        assert canon(h) in CanonKeys(incoming.Keys, canon);
      }
    }
  }

  // ---------------------------------------------------------------- one status per request

  /** A request context. Deadline and client may end it at any moment; an ended context stays ended. */
  class RequestContext {
    var done: bool

    constructor ()
    {
      done := false;
    }

    /** `Err() != nil`, asked at some later moment. */
    method Err() returns (e: bool)
      modifies this
      ensures old(done) ==> done
      ensures e == done
    {
      if * {
        done := true;
      }
      e := done;
    }

    /** `<-Done()`: blocks until the context has ended; to call it afterwards is to go on at once. */
    method AwaitDone()
      requires done
    {
    }
  }

  /** What the upstream call comes to. */
  datatype Upstream = Responds(status: int, body: bytes) | Fails

  /** `Run` on the path without the standard library's proxy. An error return has written nothing. */
  method Run(requestIsValid: bool, upstream: Upstream, reqCtx: RequestContext, w: ResponseWriter)
    returns (failed: bool)
    modifies w, reqCtx
    ensures failed <==> !requestIsValid
    ensures failed ==> w.statuses == old(w.statuses) && w.body == old(w.body)
    ensures !failed && upstream.Responds? ==>
              w.statuses == old(w.statuses) + [upstream.status] && w.body == old(w.body) + upstream.body
    ensures !failed && upstream.Fails? ==>
              && w.statuses == old(w.statuses)
                               + [if reqCtx.done then 504 else 500]
              && w.body == old(w.body)
    ensures old(reqCtx.done) ==> reqCtx.done
  {
    if !requestIsValid {
      return true;
    }
    if upstream.Fails? {
      var ended := reqCtx.Err();
      if !ended {
        w.WriteHeader(STATUS_INTERNAL_SERVER_ERROR);
        return false;
      }
      reqCtx.AwaitDone();
      ended := reqCtx.Err();
      if ended {
        w.WriteHeader(STATUS_GATEWAY_TIMEOUT);
        return false;
      }
      assert false;  // the last fallback of the source: a context that has ended stays so
    }
    w.WriteHeader(upstream.status);
    w.Write(upstream.body);
    return false;
  }

  /** The handler around `Run`: whatever happens, exactly one status line goes out. */
  method ServeProxied(requestIsValid: bool, upstream: Upstream, reqCtx: RequestContext, w: ResponseWriter,
                      message: bytes)
    modifies w, reqCtx
    ensures |w.statuses| == |old(w.statuses)| + 1 && old(w.statuses) <= w.statuses
    ensures var status := w.statuses[|w.statuses| - 1];
            if !requestIsValid then status == 500
            else if upstream.Responds? then status == upstream.status
            else status == if reqCtx.done then 504 else 500
    ensures w.body == old(w.body)
                      + (if !requestIsValid then message else if upstream.Responds? then upstream.body else [])
  {
    var failed := Run(requestIsValid, upstream, reqCtx, w);
    if failed {
      w.WriteHeader(STATUS_INTERNAL_SERVER_ERROR);
      w.Write(message);
    }
  }
}
