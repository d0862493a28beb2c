/** The idempotency middleware: answers to POST requests are kept for a while and replayed. */
module Idempotency {
  import opened Prelude

  /** A request; hashes of bodies and keys stand for what they are hashes of. */
  datatype Request = Request(isPost: bool, path: string, authorization: Option<string>, idempotencyKey: Option<string>, body: string)

  /** What the application would answer; the body comes in chunks. */
  datatype Response = Response(status: int, chunks: seq<string>, mediaType: Option<string>)

  datatype Cached = Cached(body: string, status: int, mediaType: Option<string>, requestBody: string)

  /** A key set with an expiry. */
  datatype Entry = Entry(value: Cached, expires: int)

  type Cache = map<string, Entry>

  datatype Answer =
    | FromHandler(status: int, body: string, mediaType: Option<string>)
    | Replayed(status: int, body: string, mediaType: Option<string>)
    | Conflict

  function Lookup(cache: Cache, key: string, now: int): Option<Cached> {
    if key in cache && now < cache[key].expires then Some(cache[key].value) else None
  }

  function CacheKey(request: Request, key: string): string {
    (if request.authorization.Some? then request.authorization.value else "anonymous") + ":" + request.path + ":" + key
  }

  function Body(chunks: seq<string>): string {
    if chunks == [] then "" else Body(chunks[..|chunks| - 1]) + chunks[|chunks| - 1]
  }

  /** The requests the middleware deals with: POSTs with a key that is not empty. */
  predicate Keyed(request: Request) {
    request.isPost && request.idempotencyKey.Some? && request.idempotencyKey.value != ""
  }

  function KeyOf(request: Request): string
    requires Keyed(request)
  {
    CacheKey(request, request.idempotencyKey.value)
  }

  predicate Success(status: int) {
    200 <= status < 300
  }

  /** One request: the cache is read at getAt and written, if at all, at setAt. */
  datatype Visit = Visit(request: Request, response: Response, getAt: int, setAt: int)

  datatype Outcome = Outcome(cache: Cache, answer: Answer)

  function Handled(response: Response): Answer {
    FromHandler(response.status, Body(response.chunks), response.mediaType)
  }

  function Serve(ttl: int, cache: Cache, v: Visit): Outcome {
    if !Keyed(v.request) then Outcome(cache, Handled(v.response))
    else
      var key := KeyOf(v.request);
      match Lookup(cache, key, v.getAt)
      case Some(cached) =>
        if cached.requestBody != v.request.body then Outcome(cache, Conflict)
        else Outcome(cache, Replayed(cached.status, cached.body, cached.mediaType))
      case None =>
        var body := Body(v.response.chunks);
        var entry := Entry(Cached(body, v.response.status, v.response.mediaType, v.request.body), v.setAt + ttl);
        Outcome(if Success(v.response.status) then cache[key := entry] else cache, Handled(v.response))
  }

  function Run(ttl: int, visits: seq<Visit>): Cache {
    if visits == [] then map[] else Serve(ttl, Run(ttl, visits[..|visits| - 1]), visits[|visits| - 1]).cache
  }

  function AnswerTo(ttl: int, visits: seq<Visit>, i: nat): Answer
    requires i < |visits|
  {
    Serve(ttl, Run(ttl, visits[..i]), visits[i]).answer
  }

  /** Requests are served one after the other. */
  ghost predicate Sequential(visits: seq<Visit>) {
    && (forall i :: 0 <= i < |visits| ==> visits[i].getAt <= visits[i].setAt)
    && (forall i, j :: 0 <= i < j < |visits| ==> visits[i].setAt <= visits[j].getAt)
  }

  /** The handler ran for this visit and succeeded, so its answer was kept. */
  predicate Kept(ttl: int, visits: seq<Visit>, i: nat) {
    i < |visits| && Keyed(visits[i].request) && AnswerTo(ttl, visits, i).FromHandler? && Success(visits[i].response.status)
  }

  ghost function EntryOf(ttl: int, v: Visit): Entry {
    Entry(Cached(Body(v.response.chunks), v.response.status, v.response.mediaType, v.request.body), v.setAt + ttl)
  }

  /** A kept answer stays as it is until it expires: visits in between only read it. */
  lemma {:induction false} KeptStays(ttl: int, visits: seq<Visit>, i: nat, n: nat)
    requires Sequential(visits) && Kept(ttl, visits, i) && i < n <= |visits|
    requires forall k :: i < k < n ==> visits[k].getAt < visits[i].setAt + ttl
    ensures
      var cache, key := Run(ttl, visits[..n]), KeyOf(visits[i].request);
      key in cache && cache[key] == EntryOf(ttl, visits[i])
  {
    assert visits[..n][..n - 1] == visits[..n - 1];
    if n > i + 1 {
      KeptStays(ttl, visits, i, n - 1);
    }
  }

  /** Within the lifetime of a kept answer the handler does not run again for its key: the same body
      gets the same answer, another body a conflict. */
  lemma ReplayedUntilExpiry(ttl: int, visits: seq<Visit>, i: nat, j: nat)
    requires Sequential(visits) && Kept(ttl, visits, i) && i < j < |visits|
    requires Keyed(visits[j].request) && KeyOf(visits[j].request) == KeyOf(visits[i].request)
    requires visits[j].getAt < visits[i].setAt + ttl
    ensures
      var first := visits[i].response;
      AnswerTo(ttl, visits, j)
      == if visits[j].request.body == visits[i].request.body then Replayed(first.status, Body(first.chunks), first.mediaType)
         else Conflict
  {
    forall k | i < k < j ensures visits[k].getAt < visits[i].setAt + ttl {
      assert visits[k].getAt <= visits[k].setAt <= visits[j].getAt;
    }
    KeptStays(ttl, visits, i, j);
  }

  /** Two visits with one key whose handlers both succeeded are a lifetime apart. */
  lemma SuccessesAreApart(ttl: int, visits: seq<Visit>, i: nat, j: nat)
    requires Sequential(visits) && Kept(ttl, visits, i) && Kept(ttl, visits, j) && i < j
    requires KeyOf(visits[i].request) == KeyOf(visits[j].request)
    ensures visits[j].getAt >= visits[i].setAt + ttl
  {
    if visits[j].getAt < visits[i].setAt + ttl {
      ReplayedUntilExpiry(ttl, visits, i, j);
    }
  }

  /** A replay repeats, body and status, the answer of an earlier visit with the same key and body
      whose handler succeeded less than a lifetime ago. */
  lemma {:induction false} CachedHasSource(ttl: int, visits: seq<Visit>, key: string) returns (i: nat)
    requires key in Run(ttl, visits)
    ensures Kept(ttl, visits, i) && KeyOf(visits[i].request) == key && Run(ttl, visits)[key] == EntryOf(ttl, visits[i])
  {
    var n := |visits| - 1;
    var v, before := visits[n], Run(ttl, visits[..n]);
    if Keyed(v.request) && KeyOf(v.request) == key && AnswerTo(ttl, visits, n).FromHandler? && Success(v.response.status) {
      i := n;
    } else {
      i := CachedHasSource(ttl, visits[..n], key);
      assert visits[..n][..i] == visits[..i];
    }
  }

  lemma ReplayHasSource(ttl: int, visits: seq<Visit>, j: nat) returns (i: nat)
    requires j < |visits| && AnswerTo(ttl, visits, j).Replayed?
    ensures i < j && Kept(ttl, visits, i) && Keyed(visits[j].request) && KeyOf(visits[i].request) == KeyOf(visits[j].request)
    ensures visits[j].request.body == visits[i].request.body && visits[j].getAt < visits[i].setAt + ttl
    ensures
      var first := visits[i].response;
      AnswerTo(ttl, visits, j) == Replayed(first.status, Body(first.chunks), first.mediaType)
  {
    i := CachedHasSource(ttl, visits[..j], KeyOf(visits[j].request));
    assert visits[..j][..i] == visits[..i];
  }

  // ----- when the handler runs -----

  /** An earlier visit whose handler ran and succeeded, and whose answer has not expired at `now`. */
  ghost predicate Answered(ttl: int, visits: seq<Visit>, i: nat, now: int) {
    && i < |visits| && visits[i].request.isPost
    && visits[i].request.idempotencyKey.Some? && visits[i].request.idempotencyKey.value != ""
    && AnswerTo(ttl, visits, i).FromHandler? && 200 <= visits[i].response.status < 300 && now < visits[i].setAt + ttl
  }

  /** A conflict, like a replay, has an earlier success behind it, with another body. */
  lemma CachedAnswerHasSource(ttl: int, visits: seq<Visit>, j: nat) returns (i: nat)
    requires j < |visits| && !AnswerTo(ttl, visits, j).FromHandler?
    ensures Keyed(visits[j].request) && i < j && Answered(ttl, visits, i, visits[j].getAt)
    ensures Keyed(visits[i].request) && KeyOf(visits[i].request) == KeyOf(visits[j].request)
    ensures AnswerTo(ttl, visits, j).Conflict? <==> visits[j].request.body != visits[i].request.body
  {
    i := CachedHasSource(ttl, visits[..j], KeyOf(visits[j].request));
    assert visits[..j][..i] == visits[..i];
  }

  /** The handler runs for a POST with a key exactly if no unexpired success of its key came before; it
      runs for every other request; and when it runs, its own status and body are the answer. */
  lemma HandlerRunsIff(ttl: int, visits: seq<Visit>, j: nat)
    requires Sequential(visits) && j < |visits|
    ensures
      var v := visits[j];
      && (AnswerTo(ttl, visits, j).FromHandler? <==>
            !(v.request.isPost && v.request.idempotencyKey.Some? && v.request.idempotencyKey.value != "")
            || !exists i :: 0 <= i < j && Answered(ttl, visits, i, v.getAt)
                            && KeyOf(visits[i].request) == KeyOf(v.request))
      && (AnswerTo(ttl, visits, j).FromHandler? ==>
            AnswerTo(ttl, visits, j) == FromHandler(v.response.status, Body(v.response.chunks), v.response.mediaType))
  {
    var v := visits[j];
    if Keyed(v.request) {
      if AnswerTo(ttl, visits, j).FromHandler? {
        forall i | 0 <= i < j && Answered(ttl, visits, i, v.getAt) ensures KeyOf(visits[i].request) != KeyOf(v.request) {
          if KeyOf(visits[i].request) == KeyOf(v.request) {
            ReplayedUntilExpiry(ttl, visits, i, j);
          }
        }
      } else {
        var i := CachedAnswerHasSource(ttl, visits, j);
      }
    }
  }

  /** The body is what the chunks spell, one after the other. */
  lemma {:induction false} BodyConcat(a: seq<string>, b: seq<string>)
    ensures Body(a + b) == Body(a) + Body(b)
    ensures forall chunk :: Body([chunk]) == chunk
  {
    if b == [] {
      assert a + b == a;
    } else {
      var n := |b| - 1;
      assert (a + b)[..|a + b| - 1] == a + b[..n];
      BodyConcat(a, b[..n]);
    }
  }

  // ----- which requests share a key -----

  /** Who asks: the Authorization header as it stands, or nobody in particular. */
  function Caller(request: Request): string {
    match request.authorization
    case Some(value) => value
    case None => "anonymous"
  }

  lemma SameSuffix(a: string, b: string, tail: string)
    requires a + tail == b + tail
    ensures a == b
  {
    assert a == (a + tail)[..|a|] && b == (b + tail)[..|b|];
  }

  lemma SamePrefix(head: string, a: string, b: string)
    requires head + a == head + b
    ensures a == b
  {
    assert a == (head + a)[|head|..] && b == (head + b)[|head|..];
  }

  /** Requests that differ in one of caller, path and key only never share a cache key. */
  lemma KeysTellApart(a: Request, b: Request)
    requires Keyed(a) && Keyed(b) && KeyOf(a) == KeyOf(b)
    ensures a.path == b.path && a.idempotencyKey == b.idempotencyKey ==> Caller(a) == Caller(b)
    ensures Caller(a) == Caller(b) && a.idempotencyKey == b.idempotencyKey ==> a.path == b.path
    ensures Caller(a) == Caller(b) && a.path == b.path ==> a.idempotencyKey == b.idempotencyKey
  {
    var key, other := a.idempotencyKey.value, b.idempotencyKey.value;
    assert KeyOf(a) == Caller(a) + (":" + a.path + ":" + key) == (Caller(a) + ":") + a.path + (":" + key);
    assert KeyOf(b) == Caller(b) + (":" + b.path + ":" + other) == (Caller(b) + ":") + b.path + (":" + other);
    if a.path == b.path && key == other {
      SameSuffix(Caller(a), Caller(b), ":" + a.path + ":" + key);
    }
    if Caller(a) == Caller(b) && key == other {
      SameSuffix((Caller(a) + ":") + a.path, (Caller(a) + ":") + b.path, ":" + key);
      SamePrefix(Caller(a) + ":", a.path, b.path);
    }
    if Caller(a) == Caller(b) && a.path == b.path {
      SamePrefix(Caller(a) + ":" + a.path + ":", key, other);
    }
  }

  lemma SameRequestSameKey(a: Request, b: Request)
    requires Keyed(a) && Keyed(b) && Caller(a) == Caller(b) && a.path == b.path && a.idempotencyKey == b.idempotencyKey
    ensures KeyOf(a) == KeyOf(b)
  {
  }

  lemma FirstColon(a: string, b: string)
    requires ':' !in a
    ensures (a + ":" + b)[|a|] == ':' && forall i :: 0 <= i < |a| ==> (a + ":" + b)[i] != ':'
  {
  }

  lemma ColonsSplit(a: string, b: string, c: string, d: string)
    requires ':' !in a && ':' !in c && a + ":" + b == c + ":" + d
    ensures a == c && b == d
  {
    var whole := a + ":" + b;
    FirstColon(a, b);
    FirstColon(c, d);
    assert |a| == |c|;
    assert a == whole[..|a|] && c == whole[..|c|] && b == whole[|a| + 1..] && d == whole[|c| + 1..];
  }

  /** If callers and paths hold no colon, requests share a key exactly if all three are the same. */
  lemma KeysAreExact(a: Request, b: Request)
    requires Keyed(a) && Keyed(b)
    requires ':' !in Caller(a) && ':' !in Caller(b) && ':' !in a.path && ':' !in b.path
    ensures KeyOf(a) == KeyOf(b) <==> Caller(a) == Caller(b) && a.path == b.path && a.idempotencyKey == b.idempotencyKey
  {
    if KeyOf(a) == KeyOf(b) {
      var restA, restB := a.path + ":" + a.idempotencyKey.value, b.path + ":" + b.idempotencyKey.value;
      assert KeyOf(a) == Caller(a) + ":" + restA && KeyOf(b) == Caller(b) + ":" + restB;
      ColonsSplit(Caller(a), restA, Caller(b), restB);
      ColonsSplit(a.path, a.idempotencyKey.value, b.path, b.idempotencyKey.value);
    }
  }

  /** With a colon in the path two requests that have nothing in common but the caller share a key. */
  lemma ColonsBlurKeys(body: string)
    ensures
      var a := Request(true, "/a", None, Some("b:c"), body);
      var b := Request(true, "/a:b", None, Some("c"), body);
      Keyed(a) && Keyed(b) && KeyOf(a) == KeyOf(b)
  {
  }

  /** Requests for one path under one idempotency key: a replay or a conflict goes back to a success of
      the same caller. */
  lemma CallersAreKeptApart(ttl: int, visits: seq<Visit>, j: nat) returns (i: nat)
    requires j < |visits| && !AnswerTo(ttl, visits, j).FromHandler?
    requires forall k :: 0 <= k < j && Keyed(visits[k].request) ==>
               visits[k].request.path == visits[j].request.path && visits[k].request.idempotencyKey == visits[j].request.idempotencyKey
    ensures i < j && Answered(ttl, visits, i, visits[j].getAt) && Caller(visits[i].request) == Caller(visits[j].request)
    ensures AnswerTo(ttl, visits, j).Conflict? <==> visits[j].request.body != visits[i].request.body
  {
    i := CachedAnswerHasSource(ttl, visits, j);
    KeysTellApart(visits[i].request, visits[j].request);
  }

  /** So the handler runs for a caller who has not asked before, whoever else has. */
  lemma HandlerRunsForEachCaller(ttl: int, visits: seq<Visit>, j: nat)
    requires j < |visits|
    requires forall k :: 0 <= k < j && Keyed(visits[k].request) ==>
               && visits[k].request.path == visits[j].request.path && visits[k].request.idempotencyKey == visits[j].request.idempotencyKey
               && Caller(visits[k].request) != Caller(visits[j].request)
    ensures AnswerTo(ttl, visits, j).FromHandler?
  {
    if !AnswerTo(ttl, visits, j).FromHandler? {
      var i := CallersAreKeptApart(ttl, visits, j);
    }
  }

  /** Likewise for the paths one caller asks for under one idempotency key. */
  lemma PathsAreKeptApart(ttl: int, visits: seq<Visit>, j: nat) returns (i: nat)
    requires j < |visits| && !AnswerTo(ttl, visits, j).FromHandler?
    requires forall k :: 0 <= k < j && Keyed(visits[k].request) ==>
               && Caller(visits[k].request) == Caller(visits[j].request)
               && visits[k].request.idempotencyKey == visits[j].request.idempotencyKey
    ensures i < j && Answered(ttl, visits, i, visits[j].getAt) && visits[i].request.path == visits[j].request.path
    ensures AnswerTo(ttl, visits, j).Conflict? <==> visits[j].request.body != visits[i].request.body
  {
    i := CachedAnswerHasSource(ttl, visits, j);
    KeysTellApart(visits[i].request, visits[j].request);
  }

  lemma HandlerRunsForEachPath(ttl: int, visits: seq<Visit>, j: nat)
    requires j < |visits|
    requires forall k :: 0 <= k < j && Keyed(visits[k].request) ==>
               && Caller(visits[k].request) == Caller(visits[j].request)
               && visits[k].request.idempotencyKey == visits[j].request.idempotencyKey
               && visits[k].request.path != visits[j].request.path
    ensures AnswerTo(ttl, visits, j).FromHandler?
  {
    if !AnswerTo(ttl, visits, j).FromHandler? {
      var i := PathsAreKeptApart(ttl, visits, j);
    }
  }

  // ----- the middleware -----

  class IdempotencyMiddleware {
    var cache: Cache
    const ttl: int

    constructor (ttl: int)
      ensures cache == map[] && this.ttl == ttl
    {
      this.cache, this.ttl := map[], ttl;
    }

    static method ResponseBody(chunks: seq<string>) returns (body: string)
      ensures body == Body(chunks)
    {
      body := "";
      for i := 0 to |chunks|
        invariant body == Body(chunks[..i])
      {
        assert chunks[..i + 1][..i] == chunks[..i];
        body := body + chunks[i];
      }
      assert chunks[..|chunks|] == chunks;
    }

    method Dispatch(request: Request, response: Response, getAt: int, setAt: int) returns (answer: Answer)
      modifies this
      ensures
        var outcome := Serve(ttl, old(cache), Visit(request, response, getAt, setAt));
        cache == outcome.cache && answer == outcome.answer
    {
      if !request.isPost || request.idempotencyKey.None? || request.idempotencyKey.value == "" {
        var passed := ResponseBody(response.chunks);
        return FromHandler(response.status, passed, response.mediaType);
      }
      var key := CacheKey(request, request.idempotencyKey.value);
      var found := Lookup(cache, key, getAt);
      if found.Some? {
        if found.value.requestBody != request.body {
          return Conflict;
        }
        return Replayed(found.value.status, found.value.body, found.value.mediaType);
      }
      var body := ResponseBody(response.chunks);
      if 200 <= response.status < 300 {
        cache := cache[key := Entry(Cached(body, response.status, response.mediaType, request.body), setAt + ttl)];
      }
      return FromHandler(response.status, body, response.mediaType);
    }
  }
}
