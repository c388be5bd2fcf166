/** What the fields of a rate-limit reply promise, and that both limiters keep the promise, over every run. */
module RateLimitReplies {
  import opened Wrappers
  import opened RateLimit
  import opened RateLimitRuns

  // ----- One reply -----

  /**
   Waiting `retryAfter` seconds ends the window and a second less does not; `reset` is the second in
   which it ends; `remaining` is what the window still allows.
   */
  lemma ReplyMeans(b: Bucket, r: Request)
    requires b.resetAt > r.now
    ensures var reply := ReplyFor(b, r);
      && r.now + 1000 * (reply.retryAfter - 1) < b.resetAt <= r.now + 1000 * reply.retryAfter
      && 1000 * (reply.reset - 1) < b.resetAt <= 1000 * reply.reset
      && reply.limit == r.max && (reply.allowed <==> b.count <= r.max)
      && (reply.allowed ==> reply.remaining == r.max - b.count) && (!reply.allowed ==> reply.remaining == 0)
  {
  }

  // ----- Answers over a run -----

  /** The answers of the map that is never cleaned, by event; an alarm has none. */
  function MapAnswers(events: seq<Event>): seq<Option<Reply>> {
    seq(|events|, i requires 0 <= i < |events| =>
      if events[i].Ask? then Some(ReplyFor(BucketAt(events, i), events[i].request)) else None)
  }

  function LocalAnswers(events: seq<Event>): seq<Option<Reply>> {
    seq(|events|, i requires 0 <= i < |events| =>
      if events[i].Ask? then Some(LocalReply(LocalRun(events[..i]), events[i].request)) else None)
  }

  ghost function ObjectAnswers(events: seq<Event>, ds: seq<Durable>): seq<Option<Reply>>
    requires |ds| == |events| + 1
  {
    seq(|events|, i requires 0 <= i < |events| =>
      if events[i].Ask? then Some(HitReply(ds[i], events[i].request)) else None)
  }

  lemma OwnAnswer(events: seq<Event>, ds: seq<Durable>, i: nat)
    requires ClockNeverGoesBack(events) && i < |events| && events[i].Ask?
    ensures LocalReply(LocalRun(events[..i]), events[i].request)
         == ReplyFor(BucketAt(events, i), events[i].request)
    ensures IsRun(events, ds) && FewRunning(events) ==>
      |ds| == |events| + 1 && HitReply(ds[i], events[i].request) == ReplyFor(BucketAt(events, i), events[i].request)
  {
    hide IsRun, FewRunning, LocalReply, HitReply, ReplyFor, LocalRun, Reference, Counted;
    assert events[..i] + [Ask(events[i].request)] == events[..i + 1];
    assert ClockNeverGoesBack(events[..i + 1]) by { ClockPrefix(events, i + 1); }
    hide ClockNeverGoesBack;
    LimitersAnswerAlike(events[..i], ds, events[i].request);
    if IsRun(events, ds) && FewRunning(events) {
      FewerEvents(events, ds, i);
      LimitersAnswerAlike(events[..i], ds[..i + 1], events[i].request);
    }
  }

  lemma ClockPrefix(events: seq<Event>, n: nat)
    requires ClockNeverGoesBack(events) && n <= |events|
    ensures ClockNeverGoesBack(events[..n])
  {
  }

  /** Both limiters answer as the map that is never cleaned; the object while at most 5000 windows run. */
  lemma OwnAnswers(events: seq<Event>, ds: seq<Durable>)
    requires ClockNeverGoesBack(events)
    ensures LocalAnswers(events) == MapAnswers(events)
    ensures IsRun(events, ds) && FewRunning(events) ==>
      |ds| == |events| + 1 && ObjectAnswers(events, ds) == MapAnswers(events)
  {
    if IsRun(events, ds) { RunLength(events, ds); }
    hide ClockNeverGoesBack, IsRun, FewRunning, LocalReply, HitReply, ReplyFor, LocalRun, BucketAt;
    forall i | 0 <= i < |events| && events[i].Ask?
      ensures LocalAnswers(events)[i] == MapAnswers(events)[i]
      ensures IsRun(events, ds) && FewRunning(events) ==>
        |ds| == |events| + 1 && ObjectAnswers(events, ds)[i] == MapAnswers(events)[i]
    {
      OwnAnswer(events, ds, i);
    }
  }

  // ----- The bucket between two requests -----

  predicate AsksFor(e: Event, key: string) { e.Ask? && e.request.key == key }

  /** The requests for `key` among the events `from` to `end`. */
  function Asked(events: seq<Event>, key: string, from: nat, end: nat): nat
    requires end <= |events|
  {
    if end <= from then 0 else Asked(events, key, from, end - 1) + (if AsksFor(events[end - 1], key) then 1 else 0)
  }

  /** Those that were allowed. */
  function Allowed(events: seq<Event>, answers: seq<Option<Reply>>, key: string, from: nat, end: nat): nat
    requires end <= |events| == |answers|
  {
    if end <= from then 0
    else
      Allowed(events, answers, key, from, end - 1) +
      (if AsksFor(events[end - 1], key) && answers[end - 1].Some? && answers[end - 1].value.allowed then 1 else 0)
  }

  /** Every request for the key of event `i`, from there up to `end`, has its limit and falls into its window. */
  predicate InWindowOf(events: seq<Event>, i: nat, end: nat)
    requires i < |events| && events[i].Ask? && end <= |events|
  {
    var r := events[i].request;
    forall k | i < k < end && AsksFor(events[k], r.key) ::
      events[k].request.max == r.max && events[k].request.now < BucketAt(events, i).resetAt
  }

  lemma BucketAfter(events: seq<Event>, k: nat, key: string)
    requires k < |events|
    ensures var before, after := Reference(events[..k]), Reference(events[..k + 1]);
      if AsksFor(events[k], key) then key in after && after[key] == BucketAt(events, k)
      else (key in after <==> key in before) && (key in after ==> after[key] == before[key])
  {
    hide Reference, Counted;
    assert events[..k + 1][..k] == events[..k];
    BucketStep(events[..k + 1], key);
  }

  /** Inside its window a bucket only counts, and allows what the reply said remains. */
  lemma {:induction false} WindowCounts(events: seq<Event>, i: nat, end: nat)
    requires i < end <= |events| && events[i].Ask? && InWindowOf(events, i, end)
    ensures var r, b, m := events[i].request, BucketAt(events, i), Reference(events[..end]);
      r.key in m && m[r.key] == b.(count := b.count + Asked(events, r.key, i + 1, end))
    ensures var r, b := events[i].request, BucketAt(events, i);
      var left := Max(0, r.max - b.count);
      var asked := Asked(events, r.key, i + 1, end);
      Allowed(events, MapAnswers(events), r.key, i + 1, end) == if asked <= left then asked else left
    decreases end
  {
    hide Reference, MapAnswers;
    var key := events[i].request.key;
    BucketAfter(events, end - 1, key);
    if end > i + 1 {
      WindowCounts(events, i, end - 1);
      if AsksFor(events[end - 1], key) { AnswerIs(events, end - 1); }
    }
  }

  lemma AnswerIs(events: seq<Event>, k: nat)
    requires k < |events| && events[k].Ask?
    ensures MapAnswers(events)[k] == Some(ReplyFor(BucketAt(events, k), events[k].request))
  {
  }

  // ----- The promises -----

  /**
   What the answer `a` at time `t` promises to a later request at `u` with `between` requests in the same
   window before it: a fresh window once `retryAfter` seconds have passed, and a place among the remaining
   ones while at least a second less has.
   */
  predicate KeepsPromise(a: Reply, t: int, between: nat, b: Reply, u: int) {
    && (u >= t + 1000 * a.retryAfter ==> b.allowed && b.remaining == b.limit - 1)
    && (u <= t + 1000 * (a.retryAfter - 1) ==>
          && (b.allowed <==> between < a.remaining) && b.remaining == Max(0, a.remaining - between - 1)
          && b.reset == a.reset)
  }

  lemma BucketKeepsPromise(b: Bucket, r: Request, between: nat, m: Buckets, q: Request)
    requires b.resetAt > r.now && q.max == r.max >= 1 && q.window > 0
    requires q.key in m && m[q.key] == b.(count := b.count + between)
    ensures KeepsPromise(ReplyFor(b, r), r.now, between, ReplyFor(Counted(m, q), q), q.now)
  {
    ReplyMeans(b, r);
    ReplyMeans(Counted(m, q), q);
    assert q.now < b.resetAt ==> Counted(m, q).resetAt == b.resetAt;
    SameReset(b, r, Counted(m, q), q);
    hide ReplyFor;
  }

  lemma SameReset(b: Bucket, r: Request, c: Bucket, q: Request)
    ensures b.resetAt == c.resetAt ==> ReplyFor(b, r).reset == ReplyFor(c, q).reset
  {
  }

  /** The map that is never cleaned keeps both promises. */
  lemma MapKeepsPromises(events: seq<Event>, i: nat, j: nat)
    requires i < j < |events| && events[i].Ask? && events[j].Ask? && events[j].request.key == events[i].request.key
    requires events[j].request.max == events[i].request.max >= 1
    requires events[i].request.window > 0 && events[j].request.window > 0 && InWindowOf(events, i, j)
    ensures MapAnswers(events)[i].Some? && MapAnswers(events)[j].Some?
    ensures KeepsPromise(MapAnswers(events)[i].value, events[i].request.now,
                         Asked(events, events[i].request.key, i + 1, j), MapAnswers(events)[j].value,
                         events[j].request.now)
  {
    hide Reference, MapAnswers, KeepsPromise, Allowed;
    AnswerIs(events, i);
    AnswerIs(events, j);
    WindowCounts(events, i, j);
    BucketKeepsPromise(BucketAt(events, i), events[i].request, Asked(events, events[i].request.key, i + 1, j),
      Reference(events[..j]), events[j].request);
  }

  /** Among the further requests of a window exactly as many are allowed as the answer said remain. */
  lemma RemainingIsGranted(events: seq<Event>, i: nat, end: nat)
    requires i < end <= |events| && events[i].Ask? && InWindowOf(events, i, end)
    ensures MapAnswers(events)[i].Some?
    ensures var key := events[i].request.key;
      var asked, left := Asked(events, key, i + 1, end), MapAnswers(events)[i].value.remaining;
      Allowed(events, MapAnswers(events), key, i + 1, end) == if asked <= left then asked else left
  {
    hide Reference, MapAnswers, Allowed, InWindowOf;
    AnswerIs(events, i);
    WindowCounts(events, i, end);
  }

  /**
   Both limiters keep both promises in their own answers: after a refusal the key is served again
   `retryAfter` seconds later, and inside the window exactly `remaining` further requests are allowed.
   */
  lemma LimitersKeepPromises(events: seq<Event>, ds: seq<Durable>, answers: seq<Option<Reply>>, i: nat, j: nat)
    requires ClockNeverGoesBack(events)
    requires || answers == LocalAnswers(events)
             || (&& IsRun(events, ds) && FewRunning(events) && |ds| == |events| + 1
                 && answers == ObjectAnswers(events, ds))
    requires i < j < |events| && events[i].Ask? && events[j].Ask? && events[j].request.key == events[i].request.key
    requires events[j].request.max == events[i].request.max >= 1
    requires events[i].request.window > 0 && events[j].request.window > 0 && InWindowOf(events, i, j)
    ensures |answers| == |events| && answers[i].Some? && answers[j].Some?
    ensures var asked := Asked(events, events[i].request.key, i + 1, j);
      && KeepsPromise(answers[i].value, events[i].request.now, asked, answers[j].value, events[j].request.now)
      && var left := answers[i].value.remaining;
         Allowed(events, answers, events[i].request.key, i + 1, j) == if asked <= left then asked else left
  {
    hide *;
    OwnAnswers(events, ds);
    assert |MapAnswers(events)| == |events| by { AsManyAnswers(events); }
    MapKeepsPromises(events, i, j);
    RemainingIsGranted(events, i, j);
  }

  lemma AsManyAnswers(events: seq<Event>)
    ensures |MapAnswers(events)| == |events|
  {
  }
}
