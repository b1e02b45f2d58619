/**
 * The events the input service hands to the injection sink, the requests
 * the pure model produces, and the relation between the requests and the
 * calls that reach the sink (including the single retry of a failed UP).
 */
module InputEvents {
  import opened Wrappers

  datatype Source = Touchscreen | Mouse | Keyboard | Unspecified

  /** The payload of one call to the sink: an abstract `InputEvent`. */
  datatype Event =
    | Motion(action: int, x: int, y: int, downTime: int, eventTime: int)   // one touchscreen pointer
    | Pinch(x0: int, y0: int, x1: int, y1: int, time: int)                // a two-pointer touchscreen MOVE
    | ScrollMotion(x: int, y: int, hScroll: int, vScroll: int, time: int)       // a mouse ACTION_SCROLL
    | Key(action: int, keyCode: int, repeat: int, scanCode: int, time: int, source: Source)

  /** An event the model asks the sink to deliver, with the event re-sent once if delivery fails. */
  datatype Request = Request(event: Event, retry: Option<Event>)

  /** One call to the sink and the boolean it answered. */
  datatype Injection = Injection(event: Event, ok: bool)

  /**
   * `out` is exactly the sequence of sink calls that carries out `reqs` in
   * order: one call per request, followed by a second call with the retry
   * event exactly when the first call failed and the request has a retry.
   */
  predicate Realises(reqs: seq<Request>, out: seq<Injection>)
    decreases |reqs|
  {
    if reqs == [] then out == []
    else
      |out| > 0 && out[0].event == reqs[0].event &&
      var n := if !out[0].ok && reqs[0].retry.Some? then 2 else 1;
      |out| >= n && (n == 2 ==> out[1].event == reqs[0].retry.value) &&
      Realises(reqs[1..], out[n..])
  }

  /** `after` extends `before` by sink calls that carry out `reqs`. */
  predicate LogExtends(before: seq<Injection>, after: seq<Injection>, reqs: seq<Request>)
  {
    |before| <= |after| && after[..|before|] == before && Realises(reqs, after[|before|..])
  }

  /** The events of a sequence of sink calls. */
  function Events(out: seq<Injection>): (r: seq<Event>)
    ensures |r| == |out|
    ensures forall i :: 0 <= i < |out| ==> r[i] == out[i].event
  {
    if out == [] then [] else [out[0].event] + Events(out[1..])
  }

  /** Requests with no retry: the sink is called once per request. */
  function NoRetry(evs: seq<Event>): (r: seq<Request>)
    ensures |r| == |evs|
    ensures forall i :: 0 <= i < |evs| ==> r[i] == Request(evs[i], None)
  {
    if evs == [] then [] else [Request(evs[0], None)] + NoRetry(evs[1..])
  }

  lemma {:induction false} RealisesConcat(a: seq<Request>, b: seq<Request>, o1: seq<Injection>, o2: seq<Injection>)
    requires Realises(a, o1) && Realises(b, o2)
    ensures Realises(a + b, o1 + o2)
    decreases |a|
  {
    if a == [] {
      assert a + b == b;
      assert o1 + o2 == o2;
    } else {
      var n := if !o1[0].ok && a[0].retry.Some? then 2 else 1;
      RealisesConcat(a[1..], b, o1[n..], o2);
      assert (a + b)[1..] == a[1..] + b;
      assert (o1 + o2)[n..] == o1[n..] + o2;
    }
  }

  lemma LogExtendsRefl(l: seq<Injection>)
    ensures LogExtends(l, l, [])
  {
    assert l[|l|..] == [];
  }

  lemma LogExtendsTrans(l0: seq<Injection>, l1: seq<Injection>, l2: seq<Injection>, a: seq<Request>, b: seq<Request>)
    requires LogExtends(l0, l1, a) && LogExtends(l1, l2, b)
    ensures LogExtends(l0, l2, a + b)
  {
    assert l2[..|l0|] == l1[..|l0|];
    assert l2[|l0|..] == l1[|l0|..] + l2[|l1|..];
    RealisesConcat(a, b, l1[|l0|..], l2[|l1|..]);
  }

  /** A request without retry is carried out by exactly one call, whatever the sink answers. */
  lemma {:induction false} RealisesNoRetry(evs: seq<Event>, out: seq<Injection>)
    requires Events(out) == evs
    ensures Realises(NoRetry(evs), out)
    decreases |evs|
  {
    if evs != [] {
      assert Events(out[1..]) == evs[1..];
      RealisesNoRetry(evs[1..], out[1..]);
      assert NoRetry(evs)[1..] == NoRetry(evs[1..]);
    }
  }

  /**
   * Requests that carry a retry are the only ones that can cost two sink
   * calls, so the number of calls lies between the number of requests and
   * that number plus the number of requests with a retry.
   */
  lemma {:induction false} RealisesLength(reqs: seq<Request>, out: seq<Injection>)
    requires Realises(reqs, out)
    ensures |reqs| <= |out| <= |reqs| + RetryCount(reqs)
    decreases |reqs|
  {
    if reqs != [] {
      var n := if !out[0].ok && reqs[0].retry.Some? then 2 else 1;
      RealisesLength(reqs[1..], out[n..]);
    }
  }

  function RetryCount(reqs: seq<Request>): nat
  {
    if reqs == [] then 0 else (if reqs[0].retry.Some? then 1 else 0) + RetryCount(reqs[1..])
  }

  /** One sink call that carries out a request: it succeeded, or the request has no retry. */
  lemma LogExtendsSingle(l: seq<Injection>, inj: Injection, req: Request)
    requires inj.event == req.event && (inj.ok || req.retry.None?)
    ensures LogExtends(l, l + [inj], [req])
  {
    assert (l + [inj])[..|l|] == l;
    assert (l + [inj])[|l|..] == [inj];
    assert [req][1..] == [];
    assert [inj][1..] == [];
  }

  /** A failed first call followed by the retry carries out a request with a retry. */
  lemma LogExtendsRetry(l: seq<Injection>, first: Injection, second: Injection, req: Request)
    requires first.event == req.event && !first.ok && req.retry == Some(second.event)
    ensures LogExtends(l, l + [first] + [second], [req])
  {
    assert (l + [first] + [second])[..|l|] == l;
    assert (l + [first] + [second])[|l|..] == [first, second];
    assert [req][1..] == [];
    assert [first, second][2..] == [];
  }

  lemma EventsAppend(a: seq<Injection>, b: seq<Injection>)
    ensures Events(a + b) == Events(a) + Events(b)
  {
  }

  /** The events of a log grown in two steps are the events of each step, in order. */
  lemma EventsOfExtension(l0: seq<Injection>, lk: seq<Injection>, l: seq<Injection>)
    requires |l0| <= |lk| && lk[..|l0|] == l0
    requires |lk| <= |l| && l[..|lk|] == lk
    ensures l[..|l0|] == l0
    ensures Events(l[|l0|..]) == Events(lk[|l0|..]) + Events(l[|lk|..])
  {
    assert l[|l0|..] == lk[|l0|..] + l[|lk|..];
    EventsAppend(lk[|l0|..], l[|lk|..]);
  }
}
