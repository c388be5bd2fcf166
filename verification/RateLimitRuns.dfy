/** Both limiters against the map that is never cleaned, and what that map promises, over every run. */
module RateLimitRuns {
  import opened Wrappers
  import opened RateLimit

  /** A request, or the durable object's clean-up alarm. */
  datatype Event = Ask(request: Request) | Alarm(at: int)

  function TimeOf(e: Event): int { if e.Ask? then e.request.now else e.at }

  ghost predicate ClockNeverGoesBack(events: seq<Event>) {
    forall i, j :: 0 <= i < j < |events| ==> TimeOf(events[i]) <= TimeOf(events[j])
  }

  // ----- Three limiters on the same events -----

  /** The buckets of the map that is never cleaned. */
  function Reference(events: seq<Event>): Buckets {
    if events == [] then map[]
    else
      var m, e := Reference(events[..|events| - 1]), events[|events| - 1];
      if e.Ask? then Count(m, e.request) else m
  }

  /** The answers of the map that is never cleaned. */
  function ReferenceReplies(events: seq<Event>): seq<Reply> {
    if events == [] then []
    else
      var before, e := events[..|events| - 1], events[|events| - 1];
      ReferenceReplies(before) + (if e.Ask? then [ReplyFor(Counted(Reference(before), e.request), e.request)] else [])
  }

  ghost predicate StepsTo(d: Durable, e: Event, after: Durable) {
    if e.Ask? then HitsTo(d, e.request, after) else RingsTo(d, e.at, after)
  }

  /** The states the durable object goes through, one more than events, whichever ties it evicts. */
  ghost predicate IsRun(events: seq<Event>, ds: seq<Durable>) {
    && |ds| == |events| + 1 && ds[0] == Durable(map[], 0, None)
    && forall i :: 0 <= i < |events| ==> StepsTo(ds[i], events[i], ds[i + 1])
  }

  /** The durable object's answers in such a run. */
  ghost function Replies(events: seq<Event>, ds: seq<Durable>): seq<Reply>
    requires |ds| == |events| + 1
  {
    if events == [] then []
    else
      var n := |events| - 1;
      Replies(events[..n], ds[..n + 1]) + (if events[n].Ask? then [HitReply(ds[n], events[n].request)] else [])
  }

  function LocalRun(events: seq<Event>): Buckets {
    if events == [] then map[]
    else
      var m, e := LocalRun(events[..|events| - 1]), events[|events| - 1];
      if e.Ask? then LocalHit(m, e.request) else m
  }

  lemma RunPrefix(events: seq<Event>, ds: seq<Durable>)
    requires IsRun(events, ds) && events != []
    ensures var n := |events| - 1;
      IsRun(events[..n], ds[..n + 1]) && ds[..n + 1][n] == ds[n] && StepsTo(ds[n], events[n], ds[n + 1])
  {
    hide StepsTo;
  }

  // ----- Exactly when the durable object answers like the map -----

  /** The window of a request's key is running, but the object has no bucket for it any more. */
  ghost predicate Forgets(storage: Buckets, m: Buckets, r: Request) {
    r.key in m && m[r.key].resetAt > r.now && r.key !in storage
  }

  ghost predicate ForgetsAt(events: seq<Event>, ds: seq<Durable>, i: nat)
    requires i < |events| && |ds| == |events| + 1
  {
    events[i].Ask? && Forgets(ds[i].storage, Reference(events[..i]), events[i].request)
  }

  ghost predicate PartOf(a: Buckets, b: Buckets) {
    forall k :: k in a ==> k in b && a[k] == b[k]
  }

  lemma CompactsPart(m: Buckets, now: int, after: Buckets)
    requires CompactsTo(m, now, after)
    ensures PartOf(after, m)
  {
  }

  lemma CountPart(a: Buckets, b: Buckets, r: Request)
    requires PartOf(a, b) && !Forgets(a, b, r)
    ensures Counted(a, r) == Counted(b, r) && PartOf(Count(a, r), Count(b, r))
  {
  }

  lemma PartTrans(a: Buckets, b: Buckets, c: Buckets)
    requires PartOf(a, b) && PartOf(b, c)
    ensures PartOf(a, c)
  {
  }

  /** A sweep removes no running window, so the answer and what is forgotten do not depend on it. */
  lemma SweepForgetsNothing(d: Durable, m: Buckets, r: Request)
    requires PartOf(d.storage, m)
    ensures PartOf(SweptFor(d, r), m) && (Forgets(SweptFor(d, r), m, r) <==> Forgets(d.storage, m, r))
  {
  }

  /** As long as nothing is forgotten the object holds part of the map, and answers like it. */
  lemma StepKeepsPart(d: Durable, e: Event, after: Durable, m: Buckets)
    requires PartOf(d.storage, m) && StepsTo(d, e, after)
    requires e.Ask? ==> !Forgets(d.storage, m, e.request)
    ensures PartOf(after.storage, if e.Ask? then Count(m, e.request) else m)
    ensures e.Ask? ==> HitReply(d, e.request) == ReplyFor(Counted(m, e.request), e.request)
  {
    hide ReplyFor, Counted, Count, CompactsTo, PartOf, SweptFor, Live;
    if e.Ask? {
      var r := e.request;
      SweepForgetsNothing(d, m, r);
      CountPart(SweptFor(d, r), m, r);
      if after.sweepCounter % COMPACT_EVERY == 0 {
        CompactsPart(Count(SweptFor(d, r), r), r.now, after.storage);
        PartTrans(after.storage, Count(SweptFor(d, r), r), Count(m, r));
      }
    } else {
      LivePart(d.storage, e.at);
      CompactsPart(Live(d.storage, e.at), e.at, after.storage);
      PartTrans(after.storage, Live(d.storage, e.at), d.storage);
      PartTrans(after.storage, d.storage, m);
    }
  }

  lemma LivePart(m: Buckets, now: int)
    ensures PartOf(Live(m, now), m)
  {
  }

  /** A forgotten window is answered as a new one, and every field tells but for the limit. */
  lemma ForgettingShows(d: Durable, m: Buckets, r: Request)
    requires PartOf(d.storage, m) && Forgets(d.storage, m, r) && m[r.key].count >= 1 && r.max >= 1
    ensures HitReply(d, r) != ReplyFor(Counted(m, r), r)
  {
    SweepForgetsNothing(d, m, r);
    assert Counted(SweptFor(d, r), r).count == 1;
    assert Counted(m, r).count >= 2;
    hide Counted;
  }

  lemma {:induction false} EveryBucketCounts(events: seq<Event>, key: string)
    requires key in Reference(events)
    ensures Reference(events)[key].count >= 1
  {
    if events[|events| - 1].Alarm? || events[|events| - 1].request.key != key {
      EveryBucketCounts(events[..|events| - 1], key);
    }
  }

  ghost predicate NeverForgets(events: seq<Event>, ds: seq<Durable>)
    requires |ds| == |events| + 1
  {
    forall i: nat :: i < |events| ==> !ForgetsAt(events, ds, i)
  }

  lemma ForgetsInPrefix(events: seq<Event>, ds: seq<Durable>, n: nat, i: nat)
    requires |ds| == |events| + 1 && i < n <= |events|
    ensures ForgetsAt(events, ds, i) <==> ForgetsAt(events[..n], ds[..n + 1], i)
  {
    assert events[..n][..i] == events[..i];
  }

  lemma NeverForgetsStep(events: seq<Event>, ds: seq<Durable>)
    requires |ds| == |events| + 1 && events != []
    ensures var n := |events| - 1;
      NeverForgets(events, ds) <==> NeverForgets(events[..n], ds[..n + 1]) && !ForgetsAt(events, ds, n)
  {
    hide ForgetsAt;
    var n := |events| - 1;
    if NeverForgets(events, ds) {
      var before, states := events[..n], ds[..n + 1];
      forall i: nat | i < n ensures !ForgetsAt(before, states, i) { ForgetsInPrefix(events, ds, n, i); }
    }
    if NeverForgets(events[..n], ds[..n + 1]) && !ForgetsAt(events, ds, n) {
      forall i: nat | i < |events| ensures !ForgetsAt(events, ds, i) {
        if i < n { ForgetsInPrefix(events, ds, n, i); }
      }
    }
  }

  /** The last event of a run is answered like the map. */
  ghost predicate LastAlike(events: seq<Event>, ds: seq<Durable>)
    requires |ds| == |events| + 1 && events != []
  {
    var n := |events| - 1;
    events[n].Ask? ==>
      var r, m := events[n].request, Reference(events[..n]);
      HitReply(ds[n], r) == ReplyFor(Counted(m, r), r)
  }

  /** One more event keeps two lists of answers equal exactly when its own answers are. */
  lemma RepliesStep(events: seq<Event>, ds: seq<Durable>)
    requires |ds| == |events| + 1 && events != []
    requires |Replies(events[..|events| - 1], ds[..|events|])| == |ReferenceReplies(events[..|events| - 1])|
    ensures var n := |events| - 1;
      && |Replies(events, ds)| == |ReferenceReplies(events)|
      && (Replies(events, ds) == ReferenceReplies(events) <==>
            Replies(events[..n], ds[..n + 1]) == ReferenceReplies(events[..n]) && LastAlike(events, ds))
  {
    hide HitReply, ReplyFor, Counted, Reference;
    var n := |events| - 1;
    if events[n].Ask? {
      var r := events[n].request;
      SameAppended(Replies(events[..n], ds[..n + 1]), ReferenceReplies(events[..n]),
                   HitReply(ds[n], r), ReplyFor(Counted(Reference(events[..n]), r), r));
    }
  }

  lemma SameAppended(a: seq<Reply>, b: seq<Reply>, x: Reply, y: Reply)
    requires |a| == |b|
    ensures a + [x] == b + [y] <==> a == b && x == y
  {
    if a + [x] == b + [y] {
      assert a == (a + [x])[..|a|] && b == (b + [y])[..|a|];
      assert x == (a + [x])[|a|] && y == (b + [y])[|a|];
    }
  }

  /** With part of the map in hand, the last event is answered alike exactly when it meets nothing forgotten. */
  lemma LastEvent(events: seq<Event>, ds: seq<Durable>)
    requires |ds| == |events| + 1 && events != []
    requires var n := |events| - 1;
      && PartOf(ds[n].storage, Reference(events[..n])) && StepsTo(ds[n], events[n], ds[n + 1])
      && (events[n].Ask? ==> events[n].request.max >= 1)
    ensures LastAlike(events, ds) <==> !ForgetsAt(events, ds, |events| - 1)
    ensures !ForgetsAt(events, ds, |events| - 1) ==> PartOf(ds[|events|].storage, Reference(events))
  {
    hide StepsTo, PartOf, HitReply, ReplyFor, Counted, Count;
    var n := |events| - 1;
    var e, m := events[n], Reference(events[..n]);
    if ForgetsAt(events, ds, n) {
      EveryBucketCounts(events[..n], e.request.key);
      ForgettingShows(ds[n], m, e.request);
    } else {
      StepKeepsPart(ds[n], e, ds[n + 1], m);
    }
  }

  lemma NothingForgotten(ds: seq<Durable>)
    requires |ds| == 1 && ds[0].storage == map[]
    ensures NeverForgets([], ds) && PartOf(ds[0].storage, Reference([])) && Replies([], ds) == ReferenceReplies([])
  {
  }

  /**
   The durable object, in any run and whatever it evicts, gives exactly the answers of the map
   that is never cleaned if and only if no request falls on a running window it has forgotten.
   */
  lemma {:induction false} AnswersAlikeExactly(events: seq<Event>, ds: seq<Durable>)
    requires IsRun(events, ds)
    requires forall i :: 0 <= i < |events| && events[i].Ask? ==> events[i].request.max >= 1
    ensures |Replies(events, ds)| == |ReferenceReplies(events)|
    ensures Replies(events, ds) == ReferenceReplies(events) <==> NeverForgets(events, ds)
    ensures NeverForgets(events, ds) ==> PartOf(ds[|events|].storage, Reference(events))
  {
    assert |ds| == |events| + 1 && ds[0] == Durable(map[], 0, None) by { RunLength(events, ds); }
    hide *;
    if events == [] {
      NothingForgotten(ds);
    } else {
      var n := |events| - 1;
      RunPrefix(events, ds);
      AnswersAlikeExactly(events[..n], ds[..n + 1]);
      NeverForgetsStep(events, ds);
      RepliesStep(events, ds);
      if NeverForgets(events[..n], ds[..n + 1]) { LastEvent(events, ds); }
    }
  }

  lemma RunLength(events: seq<Event>, ds: seq<Durable>)
    requires IsRun(events, ds)
    ensures |ds| == |events| + 1 && ds[0] == Durable(map[], 0, None)
  {
  }

  // ----- Up to 5000 running windows nothing is forgotten -----

  /** At most 5000 windows run at once, at every event. */
  ghost predicate FewRunning(events: seq<Event>) {
    forall i :: 0 < i <= |events| ==> |Live(Reference(events[..i]), TimeOf(events[i - 1]))| <= MAX_BUCKETS
  }

  /** Two maps hold the same running windows, from `now` on. */
  ghost predicate Agree(a: Buckets, b: Buckets, now: int) {
    Live(a, now) == Live(b, now)
  }

  lemma AgreementLasts(a: Buckets, b: Buckets, now: int, later: int)
    requires Agree(a, b, now) && now <= later
    ensures Agree(a, b, later)
  {
    assert Live(a, later) == Live(Live(a, now), later);
    assert Live(b, later) == Live(Live(b, now), later);
  }

  lemma SameWindow(a: Buckets, b: Buckets, now: int, k: string)
    requires Agree(a, b, now)
    ensures k in a && a[k].resetAt > now <==> k in b && b[k].resetAt > now
    ensures k in a && a[k].resetAt > now ==> a[k] == b[k]
  {
    assert k in Live(a, now) <==> k in Live(b, now);
    assert k in Live(a, now) ==> a[k] == Live(a, now)[k] == Live(b, now)[k];
  }

  lemma CountingAgrees(a: Buckets, b: Buckets, r: Request)
    requires Agree(a, b, r.now)
    ensures Counted(a, r) == Counted(b, r) && Agree(Count(a, r), Count(b, r), r.now)
  {
    SameWindow(a, b, r.now, r.key);
    forall k ensures k in Live(Count(a, r), r.now) <==> k in Live(Count(b, r), r.now) {
      SameWindow(a, b, r.now, k);
    }
    forall k | k in Live(Count(a, r), r.now) ensures Live(Count(a, r), r.now)[k] == Live(Count(b, r), r.now)[k] {
      SameWindow(a, b, r.now, k);
    }
  }

  lemma SweepAgrees(m: Buckets, now: int)
    ensures Agree(Live(m, now), m, now)
  {
    LiveTwice(m, now);
  }

  lemma CompactAgrees(m: Buckets, now: int, after: Buckets)
    requires CompactsTo(m, now, after) && |Live(m, now)| <= MAX_BUCKETS
    ensures Agree(after, m, now)
  {
    SweepAgrees(m, now);
  }

  lemma AgreeTrans(a: Buckets, b: Buckets, c: Buckets, now: int)
    requires Agree(a, b, now) && Agree(b, c, now)
    ensures Agree(a, c, now)
  {
  }

  /** One event keeps the agreement while few windows run after it. */
  lemma StepAgrees(d: Durable, e: Event, after: Durable, m: Buckets)
    requires Agree(d.storage, m, TimeOf(e)) && StepsTo(d, e, after)
    requires |Live(if e.Ask? then Count(m, e.request) else m, TimeOf(e))| <= MAX_BUCKETS
    ensures Agree(after.storage, if e.Ask? then Count(m, e.request) else m, TimeOf(e))
  {
    hide ReplyFor, Counted, Count, CompactsTo, Live;
    var now := TimeOf(e);
    SweepAgrees(d.storage, now);
    if e.Ask? {
      var counted := Count(SweptFor(d, e.request), e.request);
      CountingAgrees(SweptFor(d, e.request), m, e.request);
      if after.sweepCounter % COMPACT_EVERY == 0 { CompactAgrees(counted, now, after.storage); }
    } else {
      CompactAgrees(Live(d.storage, now), now, after.storage);
    }
  }

  lemma {:induction false} RunsAgree(events: seq<Event>, ds: seq<Durable>)
    requires IsRun(events, ds) && ClockNeverGoesBack(events) && FewRunning(events) && events != []
    ensures |ds| == |events| + 1
    ensures Agree(ds[|events|].storage, Reference(events), TimeOf(events[|events| - 1]))
    decreases |events|, 1
  {
    var n := |events| - 1;
    FewAtEnd(events);
    ReferenceStep(events);
    hide *;
    RunLength(events, ds);
    FewerEvents(events, ds, n);
    AgreeBefore(events, ds);
    RunPrefix(events, ds);
    StepAgrees(ds[n], events[n], ds[n + 1], Reference(events[..n]));
  }

  lemma FewAtEnd(events: seq<Event>)
    requires FewRunning(events) && events != []
    ensures |Live(Reference(events), TimeOf(events[|events| - 1]))| <= MAX_BUCKETS
  {
    hide Reference, Live;
    assert events[..|events|] == events;
  }

  lemma ReferenceStep(events: seq<Event>)
    requires events != []
    ensures var n := |events| - 1; var m, e := Reference(events[..n]), events[n];
      Reference(events) == if e.Ask? then Count(m, e.request) else m
  {
  }

  lemma {:induction false} AgreeBefore(events: seq<Event>, ds: seq<Durable>)
    requires IsRun(events, ds) && ClockNeverGoesBack(events) && events != [] && FewRunning(events[..|events| - 1])
    ensures |ds| == |events| + 1
    ensures var n := |events| - 1; Agree(ds[n].storage, Reference(events[..n]), TimeOf(events[n]))
    decreases |events|, 0
  {
    hide *;
    RunLength(events, ds);
    RunPrefix(events, ds);
    ClockStep(events);
    var n := |events| - 1;
    var before, states := events[..n], ds[..n + 1];
    assert states[n] == ds[n];
    if n == 0 {
      assert before == [];
      NothingAgrees(TimeOf(events[0]));
    } else {
      RunsAgree(before, states);
      assert before[n - 1] == events[n - 1];
      AgreementLasts(ds[n].storage, Reference(before), TimeOf(events[n - 1]), TimeOf(events[n]));
    }
  }

  lemma ClockStep(events: seq<Event>)
    requires ClockNeverGoesBack(events) && events != []
    ensures ClockNeverGoesBack(events[..|events| - 1])
    ensures |events| > 1 ==> TimeOf(events[|events| - 2]) <= TimeOf(events[|events| - 1])
  {
  }

  lemma NothingAgrees(now: int)
    ensures Agree(map[], Reference([]), now)
  {
  }

  lemma AgreementRemembers(a: Buckets, b: Buckets, r: Request)
    requires Agree(a, b, r.now)
    ensures !Forgets(a, b, r)
  {
    SameWindow(a, b, r.now, r.key);
  }

  lemma FewerEvents(events: seq<Event>, ds: seq<Durable>, n: nat)
    requires IsRun(events, ds) && ClockNeverGoesBack(events) && FewRunning(events) && n <= |events|
    ensures |ds| == |events| + 1
    ensures IsRun(events[..n], ds[..n + 1]) && ClockNeverGoesBack(events[..n]) && FewRunning(events[..n])
  {
    hide StepsTo, Live, Reference;
    forall i | 0 < i <= n ensures events[..n][..i] == events[..i] { }
  }

  lemma AgreeingRemembersAt(events: seq<Event>, ds: seq<Durable>, i: nat)
    requires |ds| == |events| + 1 && i < |events|
    requires Agree(ds[i].storage, Reference(events[..i]), TimeOf(events[i]))
    ensures !ForgetsAt(events, ds, i)
  {
    hide Reference, Agree, Forgets;
    if events[i].Ask? { AgreementRemembers(ds[i].storage, Reference(events[..i]), events[i].request); }
  }

  lemma RemembersAt(events: seq<Event>, ds: seq<Durable>, i: nat)
    requires IsRun(events, ds) && ClockNeverGoesBack(events) && FewRunning(events) && i < |events|
    ensures |ds| == |events| + 1 && !ForgetsAt(events, ds, i)
  {
    hide *;
    RunLength(events, ds);
    FewerEvents(events, ds, i);
    FewerEvents(events, ds, i + 1);
    var before, states := events[..i + 1], ds[..i + 2];
    assert before[..i] == events[..i] && before[i] == events[i] && states[i] == ds[i] && |before| == i + 1;
    AgreeBefore(before, states);
    AgreeingRemembersAt(events, ds, i);
  }

  /** With at most 5000 running windows and a clock that never goes back nothing is ever forgotten. */
  lemma FewRunningNeverForgets(events: seq<Event>, ds: seq<Durable>)
    requires IsRun(events, ds) && ClockNeverGoesBack(events) && FewRunning(events)
    ensures |ds| == |events| + 1 && NeverForgets(events, ds)
  {
    RunLength(events, ds);
    hide IsRun, ClockNeverGoesBack, FewRunning, ForgetsAt;
    forall i: nat | i < |events| ensures !ForgetsAt(events, ds, i) { RemembersAt(events, ds, i); }
  }

  /**
   With a clock that never goes back both limiters, each with its own clean-up, answer the next
   request as the map that is never cleaned; the durable object if at most 5000 windows ran at
   any event before.
   */
  lemma LimitersAnswerAlike(events: seq<Event>, ds: seq<Durable>, r: Request)
    requires ClockNeverGoesBack(events + [Ask(r)])
    ensures LocalReply(LocalRun(events), r) == ReplyFor(Counted(Reference(events), r), r)
    ensures IsRun(events, ds) && FewRunning(events) ==>
              HitReply(ds[|events|], r) == ReplyFor(Counted(Reference(events), r), r)
  {
    hide *;
    var all := events + [Ask(r)];
    LastBefore(events, r);
    assert all[..|events|] == events && all[|events|] == Ask(r) && |all| == |events| + 1;
    LocalAgreesBefore(all);
    LocalAgrees(LocalRun(events), Reference(events), r);
    if IsRun(events, ds) && FewRunning(events) {
      RunLength(events, ds);
      StateAgrees(events, ds, r.now);
      AgreeingReply(ds[|events|], Reference(events), r);
    }
  }

  /** An object that agrees with the map answers like it, swept or not. */
  lemma AgreeingReply(d: Durable, m: Buckets, r: Request)
    requires Agree(d.storage, m, r.now)
    ensures HitReply(d, r) == ReplyFor(Counted(m, r), r)
  {
    hide ReplyFor, Counted, Live, Agree;
    SweepAgrees(d.storage, r.now);
    AgreeTrans(Live(d.storage, r.now), d.storage, m, r.now);
    CountingAgrees(SweptFor(d, r), m, r);
  }

  lemma LastBefore(events: seq<Event>, r: Request)
    requires ClockNeverGoesBack(events + [Ask(r)])
    ensures ClockNeverGoesBack(events) && (events != [] ==> TimeOf(events[|events| - 1]) <= r.now)
    ensures TimeOf(Ask(r)) == r.now
  {
    var all := events + [Ask(r)];
    assert forall i :: 0 <= i < |events| ==> events[i] == all[i];
    if events != [] { assert TimeOf(all[|events| - 1]) <= TimeOf(all[|events|]); }
  }

  lemma StateAgrees(events: seq<Event>, ds: seq<Durable>, now: int)
    requires IsRun(events, ds) && ClockNeverGoesBack(events) && FewRunning(events)
    requires events != [] ==> TimeOf(events[|events| - 1]) <= now
    ensures Agree(ds[|events|].storage, Reference(events), now)
  {
    if events != [] {
      hide StepsTo, Live, Reference;
      RunsAgree(events, ds);
      AgreementLasts(ds[|events|].storage, Reference(events), TimeOf(events[|events| - 1]), now);
    }
  }

  // ----- The local limiter -----

  lemma LocalAgrees(local: Buckets, m: Buckets, r: Request)
    requires Agree(local, m, r.now)
    ensures LocalReply(local, r) == ReplyFor(Counted(m, r), r) && Agree(LocalHit(local, r), Count(m, r), r.now)
  {
    hide ReplyFor, Counted, Count, Live;
    SweepAgrees(local, r.now);
    CountingAgrees(Live(local, r.now), m, r);
  }

  lemma {:induction false} LocalAgreesBefore(events: seq<Event>)
    requires ClockNeverGoesBack(events) && events != []
    ensures var n := |events| - 1; Agree(LocalRun(events[..n]), Reference(events[..n]), TimeOf(events[n]))
  {
    hide LocalHit, Count, Live;
    var n := |events| - 1;
    var before, now := events[..n], TimeOf(events[n]);
    if n == 0 {
      assert Agree(map[], map[], now);
    } else {
      LocalAgreesBefore(before);
      var last := before[n - 1];
      if last.Ask? { LocalAgrees(LocalRun(before[..n - 1]), Reference(before[..n - 1]), last.request); }
      AgreementLasts(LocalRun(before), Reference(before), TimeOf(last), now);
    }
  }

  // ----- The objects themselves -----

  /** The durable object through any events at all. */
  method ServeDurable(events: seq<Event>) returns (replies: seq<Reply>, ghost ds: seq<Durable>)
    ensures IsRun(events, ds) && replies == Replies(events, ds)
    ensures ClockNeverGoesBack(events) && FewRunning(events) && RealLimits(events) ==>
              replies == ReferenceReplies(events)
  {
    hide *;
    var limiter := new RateLimitDO();
    replies := [];
    ds := [limiter.View()];
    RunStarts(limiter.View());
    for i := 0 to |events|
      invariant fresh(limiter) && IsRun(events[..i], ds) && |ds| == i + 1 && limiter.View() == ds[i]
      invariant replies == Replies(events[..i], ds)
    {
      ghost var d := ds;
      if events[i].Ask? {
        var reply := limiter.CheckRateLimit(events[i].request);
        replies := replies + [reply];
      } else {
        limiter.OnAlarm(events[i].at);
      }
      ds := ds + [limiter.View()];
      StepOf(d[i], events[i], limiter.View());
      RunGrows(events, i, d, limiter.View());
    }
    assert events[..|events|] == events;
    if ClockNeverGoesBack(events) && FewRunning(events) && RealLimits(events) {
      FewRunningNeverForgets(events, ds);
      LimitsAreReal(events);
      AnswersAlikeExactly(events, ds);
    }
  }

  lemma RunStarts(d: Durable)
    requires d == Durable(map[], 0, None)
    ensures forall events: seq<Event> :: IsRun(events[..0], [d]) && Replies(events[..0], [d]) == []
  {
  }

  /** One state more. */
  lemma RunGrows(events: seq<Event>, i: nat, ds: seq<Durable>, d: Durable)
    requires i < |events| && IsRun(events[..i], ds) && |ds| == i + 1 && StepsTo(ds[i], events[i], d)
    ensures IsRun(events[..i + 1], ds + [d])
    ensures Replies(events[..i + 1], ds + [d])
         == Replies(events[..i], ds) + (if events[i].Ask? then [HitReply(ds[i], events[i].request)] else [])
  {
    hide StepsTo, HitReply, Replies;
    var more, states := events[..i + 1], ds + [d];
    forall k | 0 <= k < i + 1 ensures StepsTo(states[k], more[k], states[k + 1]) {
      if k < i { assert StepsTo(ds[k], events[..i][k], ds[k + 1]); }
    }
    RepliesGrow(events, i, ds, d);
  }

  lemma RepliesGrow(events: seq<Event>, i: nat, ds: seq<Durable>, d: Durable)
    requires i < |events| && |ds| == i + 1
    ensures Replies(events[..i + 1], ds + [d])
         == Replies(events[..i], ds) + (if events[i].Ask? then [HitReply(ds[i], events[i].request)] else [])
  {
    hide HitReply;
    var more, states := events[..i + 1], ds + [d];
    assert more[..i] == events[..i] && states[..i + 1] == ds && more[i] == events[i] && states[i] == ds[i];
    assert Replies(more, states)
        == Replies(more[..i], states[..i + 1]) + (if more[i].Ask? then [HitReply(states[i], more[i].request)] else []);
  }

  lemma LimitsAreReal(events: seq<Event>)
    requires RealLimits(events)
    ensures forall i :: 0 <= i < |events| && events[i].Ask? ==> events[i].request.max >= 1
  {
  }

  /** Requests are validated to allow at least one. */
  ghost predicate RealLimits(events: seq<Event>) {
    forall i :: 0 <= i < |events| && events[i].Ask? ==> events[i].request.max >= 1
  }

  lemma StepOf(d: Durable, e: Event, after: Durable)
    requires if e.Ask? then HitsTo(d, e.request, after) else RingsTo(d, e.at, after)
    ensures StepsTo(d, e, after)
  {
  }

  /** The local limiter, through any run in which the clock never goes back. */
  method ServeLocal(events: seq<Event>) returns (replies: seq<Reply>)
    requires ClockNeverGoesBack(events)
    ensures replies == ReferenceReplies(events)
  {
    hide LocalHit, LocalReply, ReplyFor, Counted, Count;
    var limiter := new LocalLimiter();
    replies := [];
    for i := 0 to |events|
      invariant fresh(limiter) && limiter.buckets == LocalRun(events[..i])
      invariant replies == ReferenceReplies(events[..i])
    {
      assert events[..i + 1][..i] == events[..i];
      if events[i].Ask? {
        LocalAgreesBefore(events[..i + 1]);
        LocalAgrees(LocalRun(events[..i]), Reference(events[..i]), events[i].request);
        var reply := limiter.Check(events[i].request);
        replies := replies + [reply];
      }
    }
    assert events[..|events|] == events;
  }

  // ----- Beyond 5000 running windows -----

  /** Requests for different keys, all at one time and with windows that run. */
  ghost predicate Flood(events: seq<Event>, now: int) {
    && (forall i :: 0 <= i < |events| ==>
          events[i].Ask? && events[i].request.now == now && events[i].request.window > 0)
    && (forall i, j :: 0 <= i < j < |events| ==> events[i].request.key != events[j].request.key)
  }

  lemma {:induction false} OnlyAskedKeys(events: seq<Event>, key: string)
    requires key in Reference(events)
    ensures exists i :: 0 <= i < |events| && events[i].Ask? && events[i].request.key == key
  {
    var n := |events| - 1;
    if events[n].Alarm? || events[n].request.key != key {
      OnlyAskedKeys(events[..n], key);
      var i :| 0 <= i < n && events[..n][i].Ask? && events[..n][i].request.key == key;
      assert events[i].request.key == key;
    }
  }

  lemma NewKey(m: Buckets, r: Request)
    requires r.key !in m && r.window > 0 && Live(m, r.now) == m
    ensures |Count(m, r)| == |m| + 1 && Live(Count(m, r), r.now) == Count(m, r)
  {
    assert Count(m, r).Keys == m.Keys + {r.key};
    assert forall k :: k in m ==> k in Live(m, r.now);
  }

  /** Every bucket of a flood runs, and there is one for each request. */
  lemma {:induction false} FloodFills(events: seq<Event>, now: int)
    requires Flood(events, now)
    ensures |Reference(events)| == |events| && Live(Reference(events), now) == Reference(events)
  {
    if events != [] {
      hide Count, Live;
      var n := |events| - 1;
      var r := events[n].request;
      FloodFills(events[..n], now);
      if r.key in Reference(events[..n]) {
        OnlyAskedKeys(events[..n], r.key);
        assert false;
      }
      NewKey(Reference(events[..n]), r);
    }
  }

  /** Up to its 5119th request a flood loses nothing. */
  lemma {:induction false} FloodKept(events: seq<Event>, ds: seq<Durable>, now: int)
    requires IsRun(events, ds) && Flood(events, now) && |events| < 5 * COMPACT_EVERY
    ensures ds[|events|].storage == Reference(events) && ds[|events|].sweepCounter == |events|
  {
    if events != [] {
      var n := |events| - 1;
      RunPrefix(events, ds);
      FloodKept(events[..n], ds[..n + 1], now);
      FloodFills(events[..n], now);
      FloodFills(events, now);
      hide IsRun, Flood, Live;
      FloodStep(ds[n], events[n].request, ds[n + 1]);
    }
  }

  lemma FloodStep(d: Durable, r: Request, after: Durable)
    requires HitsTo(d, r, after) && Live(d.storage, r.now) == d.storage
    requires d.sweepCounter + 1 == |Count(d.storage, r)| < 5 * COMPACT_EVERY
    ensures after.storage == Count(d.storage, r) && after.sweepCounter == d.sweepCounter + 1
  {
    hide Count, Live;
    assert after.sweepCounter % COMPACT_EVERY == 0 ==> after.sweepCounter <= 4 * COMPACT_EVERY;
  }

  /**
   After 5120 requests for different keys whose windows all run, in whichever way ties are
   broken, some key is forgotten, and its next request is answered differently from the map.
   */
  lemma FloodIsForgotten(events: seq<Event>, ds: seq<Durable>, now: int) returns (key: string)
    requires IsRun(events, ds) && Flood(events, now) && |events| == 5 * COMPACT_EVERY
    ensures forall max: int, window: int | max >= 1 ::
      var r := Request(key, max, window, now);
      && Forgets(ds[|events|].storage, Reference(events), r)
      && HitReply(ds[|events|], r) != ReplyFor(Counted(Reference(events), r), r)
  {
    var n := |events| - 1;
    RunPrefix(events, ds);
    FloodKept(events[..n], ds[..n + 1], now);
    FloodFills(events[..n], now);
    FloodFills(events, now);
    FloodEvicts(ds[n], events[n].request, ds[n + 1]);
    key := MissingKey(ds[n + 1].storage, Reference(events));
    forall max: int, window: int | max >= 1
      ensures Forgets(ds[|events|].storage, Reference(events), Request(key, max, window, now))
      ensures var r := Request(key, max, window, now);
              HitReply(ds[|events|], r) != ReplyFor(Counted(Reference(events), r), r)
    {
      hide IsRun, Flood, HitReply, ReplyFor;
      assert key in Live(Reference(events), now);
      EveryBucketCounts(events, key);
      ForgettingShows(ds[|events|], Reference(events), Request(key, max, window, now));
    }
  }

  lemma FloodEvicts(d: Durable, r: Request, after: Durable)
    requires HitsTo(d, r, after) && Live(d.storage, r.now) == d.storage && d.sweepCounter + 1 == 5 * COMPACT_EVERY
    requires |Live(Count(d.storage, r), r.now)| == |Count(d.storage, r)| == 5 * COMPACT_EVERY
    ensures |after.storage| == MAX_BUCKETS && PartOf(after.storage, Count(d.storage, r))
  {
    CompactsPart(Count(d.storage, r), r.now, after.storage);
    hide Count, Live;
  }

  /** A smaller part of a map lacks one of its keys. */
  lemma MissingKey(part: Buckets, m: Buckets) returns (key: string)
    requires PartOf(part, m) && |part| < |m|
    ensures key in m && key !in part
  {
    if forall k :: k in m ==> k in part {
      SameSize(part, m);
      assert false;
    }
    key :| key in m && key !in part;
  }

  lemma SameSize(a: Buckets, b: Buckets)
    requires forall k :: k in a <==> k in b
    ensures |a| == |b|
  {
    assert a.Keys == b.Keys;
  }

  /** A flood of requests that pass validation: one-character buckets and addresses, one-minute windows. */
  lemma FloodExists(n: nat, now: int) returns (events: seq<Event>)
    requires n <= 8100
    ensures |events| == n && Flood(events, now)
    ensures forall i :: 0 <= i < n ==>
      && |events[i].request.key| == 3 && events[i].request.key[1] == ':'
      && events[i].request.window == 60000 && events[i].request.max == 1
  {
    events := seq(n, i requires 0 <= i < n => Ask(Request(KeyOf(i), 1, 60000, now)));
    forall i, j | 0 <= i < j < n ensures events[i].request.key != events[j].request.key { KeysDiffer(i, j); }
  }

  /** Bucket and address as the storage key joins them. */
  function KeyOf(i: nat): (key: string)
    requires i < 8100
    ensures |key| == 3 && key[1] == ':'
  {
    [(33 + i / 90) as char, ':', (33 + i % 90) as char]
  }

  lemma KeysDiffer(i: nat, j: nat)
    requires i < j < 8100
    ensures KeyOf(i) != KeyOf(j)
  {
    assert i / 90 != j / 90 || i % 90 != j % 90;
    assert KeyOf(i)[0] != KeyOf(j)[0] || KeyOf(i)[2] != KeyOf(j)[2];
  }

  // ----- What a key can get -----

  /** All requests for `key` carry this limit and window. */
  ghost predicate Fixed(events: seq<Event>, key: string, max: nat, window: int) {
    forall i :: 0 <= i < |events| && events[i].Ask? && events[i].request.key == key ==>
      events[i].request.max == max && events[i].request.window == window
  }

  /** The bucket a request was counted in. */
  function BucketAt(events: seq<Event>, i: nat): Bucket
    requires i < |events| && events[i].Ask?
  {
    Counted(Reference(events[..i]), events[i].request)
  }

  /** Whether the i-th event is an allowed request for `key`. */
  predicate Granted(events: seq<Event>, i: nat, key: string)
    requires i < |events|
  {
    events[i].Ask? && events[i].request.key == key && BucketAt(events, i).count <= events[i].request.max
  }

  /** Allowed requests for `key` in the window that resets at `resetAt`. */
  function GrantedInWindow(events: seq<Event>, key: string, resetAt: int): nat {
    if events == [] then 0
    else
      var n := |events| - 1;
      GrantedInWindow(events[..n], key, resetAt)
      + (if Granted(events, n, key) && BucketAt(events, n).resetAt == resetAt then 1 else 0)
  }

  /** Allowed requests for `key` with a time in [from, to]. */
  function GrantedBetween(events: seq<Event>, key: string, from: int, to: int): nat {
    if events == [] then 0
    else
      var n := |events| - 1;
      GrantedBetween(events[..n], key, from, to)
      + (if Granted(events, n, key) && from <= events[n].request.now <= to then 1 else 0)
  }

  /** What one more event does to a key's bucket. */
  lemma BucketStep(events: seq<Event>, key: string)
    requires events != []
    ensures var n := |events| - 1;
            var before, after, e := Reference(events[..n]), Reference(events), events[n];
            if e.Ask? && e.request.key == key then key in after &&
              after[key] == Counted(before, e.request) == BucketAt(events, n)
            else (key in after <==> key in before) && (key in after ==> after[key] == before[key])
  {
  }

  /**
   A window grants exactly min(count, max) requests, no other window more than max, and no
   window later than the current one has granted anything.
   */
  lemma {:induction false} WindowGrants(events: seq<Event>, key: string, max: nat, window: int, resetAt: int)
    requires ClockNeverGoesBack(events) && Fixed(events, key, max, window) && window > 0
    ensures GrantedInWindow(events, key, resetAt) <= max
    ensures var m := Reference(events);
            if key !in m || m[key].resetAt < resetAt then GrantedInWindow(events, key, resetAt) == 0
            else m[key].resetAt == resetAt ==>
                   GrantedInWindow(events, key, resetAt) == if m[key].count < max then m[key].count else max
    ensures key in Reference(events) && events != [] ==>
      Reference(events)[key].resetAt - window <= TimeOf(events[|events| - 1])
  {
    hide Count, Live, Reference, ReplyFor;
    if events == [] {
      NothingYet(key);
    } else {
      var n := |events| - 1;
      BucketStep(events, key);
      WindowGrants(events[..n], key, max, window, resetAt);
      if n > 0 { assert TimeOf(events[n - 1]) <= TimeOf(events[n]); }
      if n == 0 { NothingYet(key); assert events[..n] == []; }
    }
  }

  lemma NothingYet(key: string)
    ensures key !in Reference([])
  {
  }

  /** A request's time lies inside the window it was counted in. */
  lemma InsideWindow(events: seq<Event>, key: string, max: nat, window: int)
    requires ClockNeverGoesBack(events) && Fixed(events, key, max, window) && window > 0 && events != []
    requires events[|events| - 1].Ask? && events[|events| - 1].request.key == key
    ensures var n := |events| - 1; var t := events[n].request.now; t < BucketAt(events, n).resetAt <= t + window
  {
    hide Reference;
    var n := |events| - 1;
    if n > 0 {
      WindowGrants(events[..n], key, max, window, 0);
      assert TimeOf(events[n - 1]) <= TimeOf(events[n]);
    } else {
      assert events[..n] == [];
      NothingYet(key);
    }
  }

  /** The first and the newest window met by the requests for a key inside a span. */
  datatype Windows = NoWindow | Windows(first: int, newest: int)

  /** Grants in the span, counted window by window. */
  function GrantedIn(events: seq<Event>, key: string, w: Windows): nat {
    match w
    case NoWindow => 0
    case Windows(first, newest) =>
      GrantedInWindow(events, key, first) + (if newest == first then 0 else GrantedInWindow(events, key, newest))
  }

  /**
   The requests of a span of one window length meet at most two windows.  While the span lasts,
   the newest of them is the key's current window.
   */
  lemma {:induction false} SpanMeetsTwoWindows(events: seq<Event>, key: string, max: nat, window: int, from: int)
      returns (w: Windows)
    requires ClockNeverGoesBack(events) && Fixed(events, key, max, window) && window > 0
    ensures GrantedBetween(events, key, from, from + window) <= GrantedIn(events, key, w)
    ensures w.Windows? ==> from < w.first && (w.newest == w.first || w.first + window <= w.newest)
    ensures w.Windows? ==> events != [] && from <= TimeOf(events[|events| - 1])
    ensures w.Windows? && TimeOf(events[|events| - 1]) <= from + window ==>
              key in Reference(events) && Reference(events)[key].resetAt == w.newest
  {
    hide Count, Live, Reference, ReplyFor, Counted;
    if events == [] {
      w := NoWindow;
    } else {
      var n := |events| - 1;
      w := SpanMeetsTwoWindows(events[..n], key, max, window, from);
      if n > 0 { assert TimeOf(events[n - 1]) <= TimeOf(events[n]); }
      BucketStep(events, key);
      if events[n].Ask? && events[n].request.key == key {
        var b := BucketAt(events, n);
        InsideWindow(events, key, max, window);
        WindowsSpread(events, key, window);
        if from <= events[n].request.now <= from + window {
          w := if w.NoWindow? then Windows(b.resetAt, b.resetAt) else Windows(w.first, b.resetAt);
        }
      }
    }
  }

  /** A new window for a key ends at least a window length after the one before it. */
  lemma WindowsSpread(events: seq<Event>, key: string, window: int)
    requires events != [] && events[|events| - 1].Ask? && events[|events| - 1].request.key == key
    requires events[|events| - 1].request.window == window
    ensures var n := |events| - 1;
            var before := Reference(events[..n]);
            key in before ==>
              var was, now := before[key].resetAt, BucketAt(events, n).resetAt; now == was || was + window <= now
  {
    hide Reference;
  }

  /** A key is granted at most `max` requests per window and 2 * `max` in any span of one window length. */
  lemma GrantsAreLimited(events: seq<Event>, key: string, max: nat, window: int, resetAt: int, from: int)
    requires ClockNeverGoesBack(events) && Fixed(events, key, max, window) && window > 0
    ensures GrantedInWindow(events, key, resetAt) <= max
    ensures GrantedBetween(events, key, from, from + window) <= 2 * max
  {
    hide Reference;
    WindowGrants(events, key, max, window, resetAt);
    var w := SpanMeetsTwoWindows(events, key, max, window, from);
    if w.Windows? {
      WindowGrants(events, key, max, window, w.first);
      WindowGrants(events, key, max, window, w.newest);
    }
  }

  // ----- What the limiters themselves grant -----

  /** Requests for `key` in [from, to] that the durable object allowed. */
  ghost function ObjectGrants(events: seq<Event>, ds: seq<Durable>, key: string, from: int, to: int): nat
    requires |ds| == |events| + 1
  {
    if events == [] then 0
    else
      var n := |events| - 1;
      var e := events[n];
      ObjectGrants(events[..n], ds[..n + 1], key, from, to)
      + (if e.Ask? && e.request.key == key && from <= e.request.now <= to && HitReply(ds[n], e.request).allowed
         then 1 else 0)
  }

  /** Requests for `key` in the window that resets at `resetAt` that the durable object allowed. */
  ghost function ObjectGrantsInWindow(events: seq<Event>, ds: seq<Durable>, key: string, resetAt: int): nat
    requires |ds| == |events| + 1
  {
    if events == [] then 0
    else
      var n := |events| - 1;
      var e := events[n];
      ObjectGrantsInWindow(events[..n], ds[..n + 1], key, resetAt)
      + (if e.Ask? && e.request.key == key && BucketAt(events, n).resetAt == resetAt
            && HitReply(ds[n], e.request).allowed then 1 else 0)
  }

  /** Requests for `key` in [from, to] that the local limiter allowed. */
  function LocalGrants(events: seq<Event>, key: string, from: int, to: int): nat {
    if events == [] then 0
    else
      var n := |events| - 1;
      var e := events[n];
      LocalGrants(events[..n], key, from, to)
      + (if e.Ask? && e.request.key == key && from <= e.request.now <= to
            && LocalReply(LocalRun(events[..n]), e.request).allowed then 1 else 0)
  }

  /** The answer of a limiter that answers like the map is a grant exactly when the map grants. */
  lemma SameGrant(events: seq<Event>, n: nat, key: string)
    requires n < |events| && events[n].Ask? && events[n].request.key == key
    ensures ReplyFor(Counted(Reference(events[..n]), events[n].request), events[n].request).allowed
        <==> Granted(events, n, key)
  {
    hide Counted, Reference;
  }

  lemma ObjectAnswersLast(events: seq<Event>, ds: seq<Durable>, key: string)
    requires IsRun(events, ds) && ClockNeverGoesBack(events) && FewRunning(events) && events != []
    requires events[|events| - 1].Ask? && events[|events| - 1].request.key == key
    ensures |ds| == |events| + 1
    ensures HitReply(ds[|events| - 1], events[|events| - 1].request).allowed <==> Granted(events, |events| - 1, key)
  {
    var n := |events| - 1;
    var r := events[n].request;
    assert events == events[..n] + [Ask(r)];
    assert |ds| == |events| + 1 && ds[..n + 1][n] == ds[n] by { RunLength(events, ds); }
    hide *;
    FewerEvents(events, ds, n);
    LimitersAnswerAlike(events[..n], ds[..n + 1], r);
    SameGrant(events, n, key);
  }

  lemma {:induction false} ObjectGrantsLikeMap(events: seq<Event>, ds: seq<Durable>, key: string, from: int,
      to: int, resetAt: int)
    requires IsRun(events, ds) && ClockNeverGoesBack(events) && FewRunning(events)
    ensures |ds| == |events| + 1
    ensures ObjectGrants(events, ds, key, from, to) == GrantedBetween(events, key, from, to)
    ensures ObjectGrantsInWindow(events, ds, key, resetAt) == GrantedInWindow(events, key, resetAt)
  {
    RunLength(events, ds);
    hide IsRun, FewRunning, ClockNeverGoesBack, HitReply, BucketAt, Granted;
    if events != [] {
      var n := |events| - 1;
      FewerEvents(events, ds, n);
      ObjectGrantsLikeMap(events[..n], ds[..n + 1], key, from, to, resetAt);
      if events[n].Ask? && events[n].request.key == key { ObjectAnswersLast(events, ds, key); }
      else { NotGranted(events, n, key); }
    }
  }

  lemma NotGranted(events: seq<Event>, n: nat, key: string)
    requires n < |events| && !(events[n].Ask? && events[n].request.key == key)
    ensures !Granted(events, n, key)
  {
  }

  lemma LocalAnswersLast(events: seq<Event>, key: string)
    requires ClockNeverGoesBack(events) && events != []
    requires events[|events| - 1].Ask? && events[|events| - 1].request.key == key
    ensures var n := |events| - 1;
      LocalReply(LocalRun(events[..n]), events[n].request).allowed <==> Granted(events, n, key)
  {
    var n := |events| - 1;
    var r := events[n].request;
    assert TimeOf(events[n]) == r.now;
    hide *;
    LocalAgreesBefore(events);
    LocalAgrees(LocalRun(events[..n]), Reference(events[..n]), r);
    SameGrant(events, n, key);
  }

  lemma {:induction false} LocalGrantsLikeMap(events: seq<Event>, key: string, from: int, to: int)
    requires ClockNeverGoesBack(events)
    ensures LocalGrants(events, key, from, to) == GrantedBetween(events, key, from, to)
  {
    hide ClockNeverGoesBack, LocalReply, LocalRun, Granted;
    if events != [] {
      var n := |events| - 1;
      ClockStep(events);
      LocalGrantsLikeMap(events[..n], key, from, to);
      if events[n].Ask? && events[n].request.key == key { LocalAnswersLast(events, key); }
      else { NotGranted(events, n, key); }
    }
  }

  /**
   The durable object itself, with at most 5000 windows running, and the local limiter itself
   allow a key at most `max` requests per window and 2 * `max` in any span of one window length.
   */
  lemma LimitersKeepLimits(events: seq<Event>, ds: seq<Durable>, key: string, max: nat, window: int,
      resetAt: int, from: int)
    requires ClockNeverGoesBack(events) && Fixed(events, key, max, window) && window > 0
    ensures IsRun(events, ds) && FewRunning(events) ==>
      && |ds| == |events| + 1 && ObjectGrantsInWindow(events, ds, key, resetAt) <= max
      && ObjectGrants(events, ds, key, from, from + window) <= 2 * max
    ensures LocalGrants(events, key, from, from + window) <= 2 * max
  {
    hide *;
    GrantsAreLimited(events, key, max, window, resetAt, from);
    LocalGrantsLikeMap(events, key, from, from + window);
    if IsRun(events, ds) && FewRunning(events) {
      ObjectGrantsLikeMap(events, ds, key, from, from + window, resetAt);
    }
  }

  // ----- What is stored is cleaned up -----

  /** At most 5000 buckets and one for every request since the last compaction, and an alarm to clean them up. */
  predicate Tidy(d: Durable, now: int) {
    && |d.storage| <= 5000 + d.sweepCounter % 1024
    && (d.storage != map[] ==> d.alarmAt.Some?) && (d.alarmAt.Some? ==> d.alarmAt.value <= now + 300000)
  }

  lemma FewerKeys(a: set<string>, b: set<string>)
    requires a <= b
    ensures |a| <= |b|
  {
    assert b == a + (b - a);
  }

  lemma PartIsSmaller(a: Buckets, b: Buckets)
    requires PartOf(a, b)
    ensures |a| <= |b|
  {
    FewerKeys(a.Keys, b.Keys);
    assert |a| == |a.Keys| && |b| == |b.Keys|;
  }

  lemma CountedSize(m: Buckets, r: Request)
    ensures |Count(m, r)| <= |m| + 1
  {
    assert Count(m, r).Keys == m.Keys + {r.key};
    assert |m.Keys + {r.key}| <= |m.Keys| + 1;
  }

  lemma CompactedSize(m: Buckets, now: int, after: Buckets)
    requires CompactsTo(m, now, after)
    ensures |after| <= MAX_BUCKETS
  {
  }

  lemma HitIsTidy(d: Durable, r: Request, after: Durable, before: int)
    requires Tidy(d, before) && before <= r.now && HitsTo(d, r, after)
    ensures Tidy(after, r.now)
  {
    var counted := Count(SweptFor(d, r), r);
    CountedSize(SweptFor(d, r), r);
    assert PartOf(SweptFor(d, r), d.storage) by { if SweptFor(d, r) != d.storage { LivePart(d.storage, r.now); } }
    PartIsSmaller(SweptFor(d, r), d.storage);
    hide CompactsTo, Count, PartOf, SweptFor;
    if after.sweepCounter % COMPACT_EVERY == 0 { CompactedSize(counted, r.now, after.storage); }
  }

  lemma RingIsTidy(d: Durable, now: int, after: Durable)
    requires RingsTo(d, now, after)
    ensures Tidy(after, now)
  {
    CompactedSize(Live(d.storage, now), now, after.storage);
    hide CompactsTo, Live;
  }

  /** Over every run the storage stays small, and never goes without a clean-up alarm in the next five minutes. */
  lemma {:induction false} StorageIsTidy(events: seq<Event>, ds: seq<Durable>)
    requires IsRun(events, ds) && ClockNeverGoesBack(events) && events != []
    ensures |ds| == |events| + 1 && Tidy(ds[|events|], TimeOf(events[|events| - 1]))
  {
    hide StepsTo, Tidy;
    var n := |events| - 1;
    RunPrefix(events, ds);
    if n > 0 {
      StorageIsTidy(events[..n], ds[..n + 1]);
      StepIsTidy(ds[n], events[n], ds[n + 1], TimeOf(events[n - 1]));
    } else {
      StartIsTidy(TimeOf(events[0]));
      StepIsTidy(ds[n], events[n], ds[n + 1], TimeOf(events[0]));
    }
  }

  lemma StartIsTidy(now: int)
    ensures Tidy(Durable(map[], 0, None), now)
  {
  }

  lemma StepIsTidy(d: Durable, e: Event, after: Durable, before: int)
    requires Tidy(d, before) && before <= TimeOf(e) && StepsTo(d, e, after)
    ensures Tidy(after, TimeOf(e))
  {
    hide Tidy, HitsTo, RingsTo;
    if e.Ask? { HitIsTidy(d, e.request, after, before); } else { RingIsTidy(d, e.at, after); }
  }
}
