/** The abort-on-navigate request pool `$.allajax`
    (webroot/js/contrail-layout.js:142-165): every request sent is kept in
    `xhrPool` until it completes, and `abort()` cancels all of them. */
module RequestPool {
  import opened Wrappers
  import opened JsonValue
  import opened JsCoerce

  /** The identity of one request object (`===` on jqXHR objects). */
  type Handle = int

  /** `s.indexOf(h)`: the first position of `h`, or -1. */
  function IndexOf(s: seq<Handle>, h: Handle): (i: int)
    ensures -1 <= i < |s|
    ensures i == -1 <==> h !in s
    ensures 0 <= i ==> s[i] == h && h !in s[..i]
  {
    if s == [] then -1
    else if s[0] == h then 0
    else
      var j := IndexOf(s[1..], h);
      assert 0 <= j ==> s[..j + 1] == [s[0]] + s[1..][..j];
      if j == -1 then -1 else j + 1
  }

  /** The completion hook's effect: the first occurrence of `h` leaves the
      pool; a handle not in the pool changes nothing. */
  function RemoveFirst(s: seq<Handle>, h: Handle): (r: seq<Handle>)
    ensures h !in s ==> r == s
    ensures h in s ==> |r| == |s| - 1
    ensures multiset(r) == multiset(s) - multiset{h}
  {
    var i := IndexOf(s, h);
    if i == -1 then s
    else
      RemoveAtCounts(s, i);
      s[..i] + s[i + 1..]
  }

  /** Dropping position `i` removes one occurrence of the element there. */
  lemma RemoveAtCounts(s: seq<Handle>, i: nat)
    requires i < |s|
    ensures |s[..i] + s[i + 1..]| == |s| - 1
    ensures multiset(s[..i] + s[i + 1..]) == multiset(s) - multiset{s[i]}
  {
    assert s == s[..i] + [s[i]] + s[i + 1..];
  }

  /** Everything before the first occurrence of `h` stays where it was, and
      everything after it moves up by one. */
  lemma RemoveFirstKeepsOrder(s: seq<Handle>, h: Handle)
    requires h in s
    ensures RemoveFirst(s, h)[..IndexOf(s, h)] == s[..IndexOf(s, h)]
    ensures RemoveFirst(s, h)[IndexOf(s, h)..] == s[IndexOf(s, h) + 1..]
  {
    var i := IndexOf(s, h);
    var r := s[..i] + s[i + 1..];
    assert RemoveFirst(s, h) == r;
    assert r[..i] == s[..i];
    assert r[i..] == s[i + 1..];
  }

  /** The pool after the completion hook has run for each of `hs` in turn. */
  function CompleteAll(s: seq<Handle>, hs: seq<Handle>): seq<Handle> {
    if hs == [] then s else CompleteAll(RemoveFirst(s, hs[0]), hs[1..])
  }

  lemma MultisetDifferenceTwice(a: multiset<Handle>, b: multiset<Handle>, c: multiset<Handle>)
    ensures (a - b) - c == a - (b + c)
  {
    assert forall x :: ((a - b) - c)[x] == (a - (b + c))[x];
  }

  /** Completions in any order remove exactly the completed requests, one
      occurrence per completion. */
  lemma {:induction false} CompleteAllRemoves(s: seq<Handle>, hs: seq<Handle>)
    ensures multiset(CompleteAll(s, hs)) == multiset(s) - multiset(hs)
  {
    if hs != [] {
      var h, tail := hs[0], hs[1..];
      var rest := RemoveFirst(s, h);
      calc {
        multiset(CompleteAll(s, hs));
        multiset(CompleteAll(rest, tail));
        { CompleteAllRemoves(rest, tail); }
        multiset(rest) - multiset(tail);
        (multiset(s) - multiset{h}) - multiset(tail);
        { MultisetDifferenceTwice(multiset(s), multiset{h}, multiset(tail)); }
        multiset(s) - (multiset{h} + multiset(tail));
        { assert hs == [h] + tail; }
        multiset(s) - multiset(hs);
      }
    }
  }

  /** Once every aborted request has reported completion, whatever the order
      of the reports, the pool is empty. */
  lemma CompletingEveryAbortedEmptiesPool(s: seq<Handle>, hs: seq<Handle>)
    requires multiset(hs) == multiset(s)
    ensures CompleteAll(s, hs) == []
  {
    CompleteAllRemoves(s, hs);
    assert |CompleteAll(s, hs)| == |multiset(CompleteAll(s, hs))| == 0;
  }

  /** The closure state of `$.allajax`. */
  class Pool {
    var requests: seq<Handle>

    constructor ()
      ensures requests == []
    {
      requests := [];
    }

    /** The `ajaxSend` hook: the request joins the pool unless its
        `abortOnNavigate` option is loosely equal to `false` or "false". */
    method Send(h: Handle, abortOnNavigate: Option<Json>)
      modifies this
      ensures requests == if AbortsOnNavigate(abortOnNavigate) then old(requests) + [h] else old(requests)
    {
      if AbortsOnNavigate(abortOnNavigate) {
        requests := requests + [h];
      }
    }

    /** The `ajaxComplete` hook, on success and on failure alike. */
    method Complete(h: Handle)
      modifies this
      ensures requests == RemoveFirst(old(requests), h)
    {
      var index := IndexOf(requests, h);
      if index > -1 {
        requests := requests[..index] + requests[index + 1..];
      }
    }

    /** `abort()`: calls `abort()` on each request of a copy of the pool, in
        pool order, and returns the handles in the order they were aborted.
        It leaves the pool itself alone; requests leave it only through
        `Complete`. */
    method Abort() returns (aborted: seq<Handle>)
      ensures aborted == requests
    {
      var snapshot := requests;
      aborted := [];
      var i := 0;
      while i < |snapshot|
        invariant 0 <= i <= |snapshot|
        invariant aborted == snapshot[..i]
      {
        aborted := aborted + [snapshot[i]];
        i := i + 1;
      }
    }
  }

  /** `abort()`, after which every aborted request reports its completion,
      in the order aborted: the pool ends empty. */
  method AbortAndDrain(pool: Pool) returns (aborted: seq<Handle>)
    modifies pool
    ensures aborted == old(pool.requests)
    ensures pool.requests == []
  {
    aborted := pool.Abort();
    CompletingEveryAbortedEmptiesPool(pool.requests, aborted);
    var i := 0;
    while i < |aborted|
      invariant 0 <= i <= |aborted|
      invariant CompleteAll(pool.requests, aborted[i..]) == []
    {
      assert aborted[i..][1..] == aborted[i + 1..];
      pool.Complete(aborted[i]);
      i := i + 1;
    }
  }

  /** Three requests sent with the default options are aborted once each, in
      the order sent, and leave the pool empty once they have completed. */
  method AbortThree()
  {
    var pool := new Pool();
    pool.Send(1, None);
    pool.Send(2, None);
    pool.Send(3, None);
    var aborted := AbortAndDrain(pool);
    assert aborted == [1, 2, 3];
    assert pool.requests == [];
  }
}
