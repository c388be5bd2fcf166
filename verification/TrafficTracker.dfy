/**
 The agent's monthly traffic tracker (agent/main.go).  The network card's byte
 counter restarts at every boot; the tracker turns samples of it into a total
 per billing period.
 */
module TrafficTracker {
  import opened Calendar

  import opened Wrappers

  /** Uploaded and downloaded bytes. */
  datatype Bytes = Bytes(up: int, down: int) {
    function Plus(b: Bytes): Bytes { Bytes(up + b.up, down + b.down) }
    function Minus(b: Bytes): Bytes { Bytes(up - b.up, down - b.down) }
    predicate AtMost(b: Bytes) { up <= b.up && down <= b.down }
  }

  const ZERO := Bytes(0, 0)

  /** The persisted record; `period` is the instant the stored period began, None for "". */
  datatype State = State(resetDay: int, period: Option<int>, scope: string, lastRaw: Bytes, total: Bytes,
                         baseline: Bytes, lastBootUnix: int)

  const EMPTY := State(0, None, "", ZERO, ZERO, ZERO, 0)

  /** One call of `adjustSinceBoot`; `bootedAt` is None when the boot time is unknown. */
  datatype Sample = Sample(raw: Bytes, now: int, bootedAt: Option<int>)

  const UNIX_EPOCH := Midnight(719528)

  /** The day Go's Unix time counts from is 1 January 1970. */
  lemma EpochIs1970()
    ensures UNIX_EPOCH == Midnight(Date(12 * 1970, 1)) == 62_167_219_200
  {
    hide MonthStart;
    YearStarts(1970);
    assert LeapsBefore(1970) == 478;
  }

  function BootUnix(bootedAt: Option<int>): int {
    if bootedAt.None? then 0 else bootedAt.value - UNIX_EPOCH
  }

  /** `rawTrafficCoversPeriod`: the machine booted inside the period that began at `start`. */
  predicate RawCovers(start: int, s: Sample) {
    s.bootedAt.Some? && start <= s.bootedAt.value <= s.now
  }

  function Max(a: int, b: int): int { if a > b then a else b }

  /** The fixed settings of a tracker, with the start of the billing period of each instant. */
  datatype Plan = Plan(resetDay: int, scope: string, periodStart: int -> int)

  /** What billing needs of the calendar: periods are cut by the clock, and by nothing else. */
  ghost predicate Lawful(p: Plan) {
    && p.resetDay >= 1
    && (forall t :: p.periodStart(t) <= t)
    && (forall t, u :: t <= u ==>
          && p.periodStart(t) <= p.periodStart(u)
          && (p.periodStart(t) == p.periodStart(u) <==> p.periodStart(u) <= t))
  }

  function PlanOf(resetDay: int, scope: string): Plan {
    Plan(resetDay, scope, t => LastResetDate(resetDay, t))
  }

  /** The agent's monthly calendar is such a calendar, for every reset day. */
  lemma MonthlyPlanIsLawful(day: int, scope: string)
    ensures Lawful(PlanOf(NormalizeResetDay(day), scope))
  {
    hide LastResetDate;
    var p := PlanOf(NormalizeResetDay(day), scope);
    forall t ensures p.periodStart(t) <= t {
      LastResetIsGreatest(p.resetDay, t);
    }
    forall t, u | t <= u
      ensures p.periodStart(t) <= p.periodStart(u)
      ensures p.periodStart(t) == p.periodStart(u) <==> p.periodStart(u) <= t
    {
      PeriodsFollowClock(p.resetDay, t, u);
    }
  }

  predicate SamePeriod(p: Plan, st: State, start: int) {
    st.resetDay == p.resetDay && st.period == Some(start) && st.scope == p.scope
  }

  /** The counter's growth since the last sample, or the raw counter after a reset inside the period. */
  function Growth(last: Bytes, raw: Bytes, covers: bool): Bytes {
    var d := raw.Minus(last);
    if d.up < 0 || d.down < 0 then (if covers then raw else Bytes(Max(0, d.up), Max(0, d.down)))
    else d
  }

  /** `adjustSinceBoot`: the record after one sample; the call returns its `total`. */
  function Adjust(p: Plan, st: State, s: Sample): State {
    var start := p.periodStart(s.now);
    var covers := RawCovers(start, s);
    var boot := BootUnix(s.bootedAt);
    var same := SamePeriod(p, st, start);
    var next := State(p.resetDay, Some(start), p.scope, s.raw, ZERO, ZERO, boot);
    if same && covers && boot != 0 && st.lastBootUnix != 0 && st.lastBootUnix != boot then
      next.(total := st.total.Plus(s.raw))
    else if same && covers && st.total.AtMost(s.raw) && st.total != s.raw then
      next.(total := s.raw)
    else if st.lastRaw == ZERO && st.baseline != ZERO then
      if same then
        var d := s.raw.Minus(st.baseline);
        next.(total := Bytes(Max(0, d.up), Max(0, d.down)))
      else next
    else if st.resetDay != p.resetDay || st.period == None || st.scope != p.scope then
      if covers then next.(total := s.raw) else next
    else
      var delta := Growth(st.lastRaw, s.raw, covers);
      var total := if st.period == Some(start) then st.total.Plus(delta) else if covers then s.raw else delta;
      next.(total := total, baseline := st.baseline)
  }

  /** The tracker object, updating its stored record in place. */
  class TrafficResetTracker {
    const resetDay: int
    const scope: string
    var state: State

    constructor (day: int, scope: string, loaded: State)
      ensures resetDay == NormalizeResetDay(day) && this.scope == scope && state == loaded
    {
      this.resetDay := NormalizeResetDay(day);
      this.scope := scope;
      state := loaded;
    }

    method AdjustSinceBoot(raw: Bytes, now: int, bootedAt: Option<int>) returns (billed: Bytes)
      modifies this
      ensures state == Adjust(PlanOf(resetDay, scope), old(state), Sample(raw, now, bootedAt))
      ensures billed == state.total
    {
      hide LastResetDate, BootUnix, RawCovers;
      var start := LastResetDate(resetDay, now);
      assert PlanOf(resetDay, scope).periodStart(now) == start;
      var covers := RawCovers(start, Sample(raw, now, bootedAt));
      var bootUnix := BootUnix(bootedAt);
      var samePeriod := state.resetDay == resetDay && state.period == Some(start) && state.scope == scope;
      var bootChanged := bootUnix != 0 && state.lastBootUnix != 0 && state.lastBootUnix != bootUnix;
      if samePeriod && covers && bootChanged {
        state := state.(total := state.total.Plus(raw), lastRaw := raw, lastBootUnix := bootUnix, baseline := ZERO);
        return state.total;
      }
      if samePeriod && covers && raw.up >= state.total.up && raw.down >= state.total.down &&
         (state.total.up < raw.up || state.total.down < raw.down)
      {
        var total := Bytes(Max(state.total.up, raw.up), Max(state.total.down, raw.down));
        state := state.(total := total, lastRaw := raw, lastBootUnix := bootUnix, baseline := ZERO);
        return state.total;
      }
      if state.lastRaw.up == 0 && state.lastRaw.down == 0 && (state.baseline.up != 0 || state.baseline.down != 0) {
        var total := ZERO;
        if samePeriod {
          total := raw.Minus(state.baseline);
          if total.up < 0 { total := total.(up := 0); }
          if total.down < 0 { total := total.(down := 0); }
        }
        state := State(resetDay, Some(start), scope, raw, total, ZERO, bootUnix);
        return state.total;
      }
      if state.resetDay != resetDay || state.period.None? || state.scope != scope {
        var total := ZERO;
        if covers { total := raw; }
        state := State(resetDay, Some(start), scope, raw, total, ZERO, bootUnix);
        return total;
      }
      CountGrowth(raw, start, covers, bootUnix);
      return state.total;
    }

    /** The last part of `adjustSinceBoot`: count the growth, in the old period or a new one. */
    method CountGrowth(raw: Bytes, start: int, covers: bool, bootUnix: int)
      modifies this
      ensures state == old(state).(period := Some(start), lastRaw := raw, lastBootUnix := bootUnix, total :=
                var delta := Growth(old(state).lastRaw, raw, covers);
                if old(state).period == Some(start) then old(state).total.Plus(delta) else if covers then raw
                  else delta)
    {
      var delta := raw.Minus(state.lastRaw);
      if delta.up < 0 || delta.down < 0 {
        if covers {
          delta := raw;
        } else {
          if delta.up < 0 { delta := delta.(up := 0); }
          if delta.down < 0 { delta := delta.(down := 0); }
        }
      }
      if state.period != Some(start) {
        if covers { delta := raw; }
        state := state.(period := Some(start), total := delta);
      } else {
        state := state.(total := state.total.Plus(delta));
      }
      state := state.(lastRaw := raw, lastBootUnix := bootUnix);
    }
  }

  // ----- One call -----

  /** A record no legacy file left behind, with sensible totals. */
  predicate Sound(st: State) {
    st.baseline == ZERO && ZERO.AtMost(st.total)
  }

  /** Every branch keeps the record sound and moves it to the sample's period. */
  lemma AdjustKeepsSound(p: Plan, st: State, s: Sample)
    requires Sound(st) && ZERO.AtMost(s.raw)
    ensures Sound(Adjust(p, st, s)) && SamePeriod(p, Adjust(p, st, s), p.periodStart(s.now))
    ensures Adjust(p, st, s).lastRaw == s.raw && Adjust(p, st, s).lastBootUnix == BootUnix(s.bootedAt)
  {
  }

  /** Totals never fall within one stored period, whatever the counters and boot times do. */
  lemma TotalsNeverFall(p: Plan, st: State, s: Sample)
    requires Sound(st) && ZERO.AtMost(s.raw) && SamePeriod(p, st, p.periodStart(s.now))
    ensures st.total.AtMost(Adjust(p, st, s).total)
  {
  }

  /** Presenting a sample twice is the same as presenting it once. */
  lemma AdjustIsIdempotent(p: Plan, st: State, s: Sample)
    requires Sound(st) && ZERO.AtMost(s.raw)
    ensures Adjust(p, Adjust(p, st, s), s) == Adjust(p, st, s)
  {
    assert Growth(s.raw, s.raw, RawCovers(p.periodStart(s.now), s)) == ZERO;
  }

  // ----- Whole runs -----

  /** A record together with the final totals of the periods that are over. */
  datatype Ledger = Ledger(state: State, closed: Bytes)

  /** One sample; when it opens a new period, the total before it was the old period's final one. */
  function Enter(p: Plan, book: Ledger, s: Sample): Ledger {
    var rotates := book.state.period.Some? && book.state.period != Some(p.periodStart(s.now));
    Ledger(Adjust(p, book.state, s), if rotates then book.closed.Plus(book.state.total) else book.closed)
  }

  /** The ledger of a run of samples, starting without a state file. */
  function Book(p: Plan, samples: seq<Sample>): Ledger {
    if samples == [] then Ledger(EMPTY, ZERO)
    else Enter(p, Book(p, samples[..|samples| - 1]), samples[|samples| - 1])
  }

  function Run(p: Plan, samples: seq<Sample>): State {
    Book(p, samples).state
  }

  lemma {:induction false} RunFacts(p: Plan, samples: seq<Sample>)
    requires forall s :: s in samples ==> ZERO.AtMost(s.raw)
    ensures Sound(Run(p, samples))
    ensures samples != [] ==>
              var st, last := Run(p, samples), samples[|samples| - 1];
              && SamePeriod(p, st, p.periodStart(last.now))
              && st.lastRaw == last.raw && st.lastBootUnix == BootUnix(last.bootedAt)
  {
    if samples != [] {
      RunFacts(p, samples[..|samples| - 1]);
      AdjustKeepsSound(p, Run(p, samples[..|samples| - 1]), samples[|samples| - 1]);
    }
  }

  // ----- The truth behind the samples -----

  /** What really happened: the clock's reading and the bytes moved so far at each moment. */
  datatype World = World(clock: nat -> int, moved: nat -> Bytes)

  /** A sample taken at moment `at`, under the boot of moment `boot`, its time known or not. */
  datatype Reading = Reading(at: nat, boot: nat, known: bool)

  ghost predicate OnwardWorld(w: World) {
    forall i: nat, j: nat :: i <= j ==> w.clock(i) <= w.clock(j) && w.moved(i).AtMost(w.moved(j))
  }

  /** Counters start at zero on each boot; a later sample shares the boot or follows a newer one. */
  ghost predicate Legal(w: World, rs: seq<Reading>) {
    && OnwardWorld(w)
    && (forall i :: 0 <= i < |rs| ==> rs[i].boot <= rs[i].at)
    && (forall i, j :: 0 <= i < j < |rs| ==>
      rs[i].at <= rs[j].at && (rs[j].boot == rs[i].boot || rs[i].at <= rs[j].boot))
  }

  ghost function SampleOf(w: World, r: Reading): Sample {
    Sample(w.moved(r.at).Minus(w.moved(r.boot)), w.clock(r.at), if r.known then Some(w.clock(r.boot)) else None)
  }

  ghost function SamplesOf(w: World, rs: seq<Reading>): (samples: seq<Sample>)
    ensures |samples| == |rs|
    ensures forall i :: 0 <= i < |rs| ==> samples[i] == SampleOf(w, rs[i])
  {
    seq(|rs|, i requires 0 <= i < |rs| => SampleOf(w, rs[i]))
  }

  lemma RawNonNegative(w: World, rs: seq<Reading>)
    requires Legal(w, rs)
    ensures forall s :: s in SamplesOf(w, rs) ==> ZERO.AtMost(s.raw)
  {
    forall i | 0 <= i < |rs| ensures ZERO.AtMost(SampleOf(w, rs[i]).raw) {
      assert w.moved(rs[i].boot).AtMost(w.moved(rs[i].at));
    }
  }

  /**
   Moments from which a bill for the period that began at `start` may count: those up to
   the last sample before the period or, when there was none, up to the first moment of it.
   */
  ghost predicate MayCountFrom(w: World, rs: seq<Reading>, start: int, m: nat) {
    && (forall k: nat :: k < m ==> w.clock(k) < start)
    && ((forall i :: 0 <= i < |rs| ==> start <= w.clock(rs[i].at))
        || (exists i :: 0 <= i < |rs| && w.clock(rs[i].at) < start && m <= rs[i].at))
  }

  /**
   One more sample bills no more than was moved since the one before it.  `anchor`, `last`,
   `boot` and `total` are the bytes moved in all at the moment counting starts, at the
   previous sample, at the sample's boot and at the sample.
   */
  lemma AdjustStaysBelow(p: Plan, st: State, s: Sample, anchor: Bytes, last: Bytes, boot: Bytes, total: Bytes)
    requires Sound(st) && st.resetDay == p.resetDay && st.scope == p.scope && st.period.Some?
    requires s.raw == total.Minus(boot) && boot.AtMost(total) && last.AtMost(total) && ZERO.AtMost(st.lastRaw)
    requires RawCovers(p.periodStart(s.now), s) ==> anchor.AtMost(boot)
    requires last.AtMost(boot)
          || (s.raw.Minus(st.lastRaw) == total.Minus(last)
              && (BootUnix(s.bootedAt) == 0 || st.lastBootUnix == 0 || st.lastBootUnix == BootUnix(s.bootedAt)))
    requires if st.period == Some(p.periodStart(s.now)) then st.total.AtMost(last.Minus(anchor))
      else anchor.AtMost(last)
    ensures Adjust(p, st, s).total.AtMost(total.Minus(anchor))
  {
  }

  lemma ReadingStaysBelow(w: World, rs: seq<Reading>, m: nat, p: Plan, st: State)
    requires Legal(w, rs) && |rs| >= 2 && Sound(st) && st.resetDay == p.resetDay && st.scope == p.scope &&
      st.period.Some?
    requires var prev := SampleOf(w, rs[|rs| - 2]); st.lastRaw == prev.raw && st.lastBootUnix == BootUnix(prev.bootedAt)
    requires MayCountFrom(w, rs, p.periodStart(w.clock(rs[|rs| - 1].at)), m)
    requires if st.period == Some(p.periodStart(w.clock(rs[|rs| - 1].at)))
             then st.total.AtMost(w.moved(rs[|rs| - 2].at).Minus(w.moved(m)))
             else m <= rs[|rs| - 2].at
    ensures Adjust(p, st, SampleOf(w, rs[|rs| - 1])).total.AtMost(w.moved(rs[|rs| - 1].at).Minus(w.moved(m)))
  {
    var prev, r := rs[|rs| - 2], rs[|rs| - 1];
    var s := SampleOf(w, r);
    assert r.boot == prev.boot || prev.at <= r.boot;
    assert w.moved(prev.boot).AtMost(w.moved(prev.at)) && w.moved(prev.at).AtMost(w.moved(r.at));
    assert r.boot != prev.boot ==> w.moved(prev.at).AtMost(w.moved(r.boot));
    assert RawCovers(p.periodStart(s.now), s) ==> w.moved(m).AtMost(w.moved(r.boot)) by {
      if RawCovers(p.periodStart(s.now), s) {
        assert r.boot < m ==> w.clock(r.boot) <= w.clock(m);
      }
    }
    AdjustStaysBelow(p, st, s, w.moved(m), w.moved(prev.at), w.moved(r.boot), w.moved(r.at));
  }

  /** Counting moments of a run are counting moments of the run one sample shorter. */
  lemma CountingBefore(w: World, rs: seq<Reading>, start: int, m: nat)
    requires Legal(w, rs) && |rs| >= 2 && MayCountFrom(w, rs, start, m) && start <= w.clock(rs[|rs| - 1].at)
    ensures Legal(w, rs[..|rs| - 1]) && w.clock(rs[|rs| - 2].at) <= w.clock(rs[|rs| - 1].at)
    ensures start <= w.clock(rs[|rs| - 2].at) ==> MayCountFrom(w, rs[..|rs| - 1], start, m)
    ensures w.clock(rs[|rs| - 2].at) < start ==> m <= rs[|rs| - 2].at
  {
    var before := rs[..|rs| - 1];
    if i :| 0 <= i < |rs| && w.clock(rs[i].at) < start && m <= rs[i].at {
      assert before[i] == rs[i];
      assert rs[i].at <= rs[|rs| - 2].at;
    } else {
      assert forall i :: 0 <= i < |before| ==> before[i] == rs[i];
    }
  }

  lemma FirstReadingStaysBelow(w: World, rs: seq<Reading>, m: nat, p: Plan)
    requires Legal(w, rs) && |rs| == 1 && Lawful(p) && MayCountFrom(w, rs, p.periodStart(w.clock(rs[0].at)), m)
    ensures Adjust(p, EMPTY, SampleOf(w, rs[0])).total.AtMost(w.moved(rs[0].at).Minus(w.moved(m)))
  {
    assert m <= rs[0].at;
    assert RawCovers(p.periodStart(w.clock(rs[0].at)), SampleOf(w, rs[0])) ==> m <= rs[0].boot;
  }

  /**
   A period's total never exceeds the bytes truly moved since the last sample before
   the period (or since its start, if there was none), over every run and any reboots.
   */
  lemma {:induction false} BilledNeverExceedsMoved(p: Plan, w: World, rs: seq<Reading>, m: nat)
    requires Lawful(p) && Legal(w, rs) && rs != []
    requires MayCountFrom(w, rs, p.periodStart(w.clock(rs[|rs| - 1].at)), m)
    ensures Run(p, SamplesOf(w, rs)).total.AtMost(w.moved(rs[|rs| - 1].at).Minus(w.moved(m)))
  {
    hide Legal, MayCountFrom, Adjust, OnwardWorld;
    var n := |rs| - 1;
    var before, start := rs[..n], p.periodStart(w.clock(rs[n].at));
    assert SamplesOf(w, rs)[..n] == SamplesOf(w, before);
    if n == 0 {
      assert SamplesOf(w, before) == [];
      assert Book(p, SamplesOf(w, before)) == Ledger(EMPTY, ZERO);
      FirstReadingStaysBelow(w, rs, m, p);
    } else {
      var st := Run(p, SamplesOf(w, before));
      CountingBefore(w, rs, start, m);
      RunFacts(p, SamplesOf(w, before)) by { RawNonNegative(w, before); }
      if st.period == Some(start) {
        BilledNeverExceedsMoved(p, w, before, m);
      }
      ReadingStaysBelow(w, rs, m, p, st);
    }
  }

  // ----- Exactly what one sample bills -----

  /** What the counter rose by, side by side. */
  function Risen(last: Bytes, raw: Bytes): Bytes { Bytes(Max(0, raw.up - last.up), Max(0, raw.down - last.down)) }

  /** A reboot the two boot times show. */
  predicate Rebooted(st: State, s: Sample) {
    && s.bootedAt.Some? && s.bootedAt.value != UNIX_EPOCH
    && st.lastBootUnix != 0 && UNIX_EPOCH + st.lastBootUnix != s.bootedAt.value
  }

  /** What a sample of a boot inside the period shows: the whole counter of a new or restarted one, else its growth. */
  function Seen(st: State, s: Sample): Bytes {
    if Rebooted(st, s) || !st.lastRaw.AtMost(s.raw) then s.raw else s.raw.Minus(st.lastRaw)
  }

  /** The counter has overtaken the total, which is then given up for it. */
  predicate Overtakes(st: State, s: Sample) {
    !Rebooted(st, s) && st.total.AtMost(s.raw) && st.total != s.raw
  }

  /**
   For a boot inside the stored period: the total becomes the counter if the counter has
   overtaken it, and otherwise what was seen is added. So a reboot adds the new boot's counter,
   and what was seen is added unless an overtaken total held more than the last counter.
   */
  lemma CoveredSampleBills(p: Plan, st: State, s: Sample)
    requires Sound(st) && SamePeriod(p, st, p.periodStart(s.now)) && RawCovers(p.periodStart(s.now), s)
    ensures Adjust(p, st, s).total == if Overtakes(st, s) then s.raw else st.total.Plus(Seen(st, s))
    ensures st.lastRaw.AtMost(s.raw) || Rebooted(st, s) ==>
      (Adjust(p, st, s).total == st.total.Plus(Seen(st, s)) <==> !(Overtakes(st, s) && st.total != st.lastRaw))
  {
  }

  /** For a boot before the period, or of unknown time: what the counter rose by, since the last sample. */
  lemma UncoveredSampleBills(p: Plan, st: State, s: Sample)
    requires Sound(st) && st.resetDay == p.resetDay && st.scope == p.scope && st.period.Some?
    requires !RawCovers(p.periodStart(s.now), s)
    ensures Adjust(p, st, s).total
         == (if st.period == Some(p.periodStart(s.now)) then st.total else ZERO).Plus(Risen(st.lastRaw, s.raw))
  {
  }

  /** The first sample of a period, or of other settings: a boot inside the period is billed whole. */
  lemma FirstOfPeriodBills(p: Plan, st: State, s: Sample)
    requires Sound(st) && !SamePeriod(p, st, p.periodStart(s.now))
    ensures RawCovers(p.periodStart(s.now), s) ==> Adjust(p, st, s).total == s.raw
    ensures !RawCovers(p.periodStart(s.now), s) && (st.resetDay != p.resetDay || st.scope != p.scope || st.period.None?)
      ==> Adjust(p, st, s).total == ZERO
  {
  }

  /** A record of an old state file, with a baseline: its period goes on from the baseline, any other starts at zero. */
  lemma LegacyRecordBills(p: Plan, st: State, s: Sample)
    requires st.lastRaw == ZERO != st.baseline
    requires !(SamePeriod(p, st, p.periodStart(s.now)) && RawCovers(p.periodStart(s.now), s))
    ensures Adjust(p, st, s).baseline == ZERO
    ensures Adjust(p, st, s).total
         == if SamePeriod(p, st, p.periodStart(s.now)) then Risen(st.baseline, s.raw) else ZERO
  {
  }

  // ----- Several boots in one period -----

  /** Boots of known times inside one period, each showing a counter that only grows. */
  predicate BootsInPeriod(p: Plan, samples: seq<Sample>, start: int) {
    && (forall i :: 0 <= i < |samples| ==>
          && ZERO.AtMost(samples[i].raw) && samples[i].bootedAt != Some(UNIX_EPOCH)
          && p.periodStart(samples[i].now) == start && RawCovers(start, samples[i]))
    && (forall i :: 0 <= i < |samples| - 1 && samples[i].bootedAt == samples[i + 1].bootedAt ==>
          samples[i].raw.AtMost(samples[i + 1].raw))
  }

  /** The last counters of all boots together. */
  function BootsTotal(samples: seq<Sample>): Bytes {
    if samples == [] then ZERO
    else
      var n := |samples| - 1;
      var s, before := samples[n], BootsTotal(samples[..n]);
      if n > 0 && samples[n - 1].bootedAt == s.bootedAt then before.Plus(s.raw.Minus(samples[n - 1].raw))
      else before.Plus(s.raw)
  }

  /** No sample so far has overtaken a total that held more than its boot's last counter. */
  predicate NeverOvertaken(p: Plan, samples: seq<Sample>) {
    samples == [] ||
    var n := |samples| - 1;
    var st, s := Run(p, samples[..n]), samples[n];
    NeverOvertaken(p, samples[..n]) && (n > 0 ==> !(Overtakes(st, s) && st.total != st.lastRaw))
  }

  lemma BootsPrefix(p: Plan, samples: seq<Sample>, start: int)
    requires BootsInPeriod(p, samples, start) && samples != []
    ensures BootsInPeriod(p, samples[..|samples| - 1], start) && KnownBoots(samples)
    ensures forall x :: x in samples ==> ZERO.AtMost(x.raw)
  {
  }

  /** One more sample, in terms of what it shows. */
  lemma BootsStep(p: Plan, samples: seq<Sample>, start: int)
    requires BootsInPeriod(p, samples, start) && |samples| > 1
    ensures var n := |samples| - 1; var st, s := Run(p, samples[..n]), samples[n];
      && Sound(st) && SamePeriod(p, st, start) && RawCovers(start, s) && p.periodStart(s.now) == start
      && st.lastRaw == samples[n - 1].raw && Run(p, samples) == Adjust(p, st, s)
      && (st.lastRaw.AtMost(s.raw) || Rebooted(st, s))
      && BootsTotal(samples) == BootsTotal(samples[..n]).Plus(Seen(st, s))
  {
    hide *;
    var n := |samples| - 1;
    BootsPrefix(p, samples, start);
    assert samples[..n][n - 1] == samples[n - 1] && forall x :: x in samples[..n] ==> x in samples;
    RunFacts(p, samples[..n]);
    LastTwoBoots(p, samples, start);
    BootsTotalStep(samples, Run(p, samples[..n]));
    OneMoreSample(p, samples);
  }

  lemma LastTwoBoots(p: Plan, samples: seq<Sample>, start: int)
    requires BootsInPeriod(p, samples, start) && |samples| > 1
    ensures var n := |samples| - 1; var last, s := samples[n - 1], samples[n];
      && p.periodStart(last.now) == p.periodStart(s.now) == start && RawCovers(start, s)
      && last.bootedAt.Some? && s.bootedAt.Some?
      && last.bootedAt.value != UNIX_EPOCH && s.bootedAt.value != UNIX_EPOCH
      && (last.bootedAt == s.bootedAt ==> last.raw.AtMost(s.raw))
  {
    var n := |samples| - 1;
    assert RawCovers(start, samples[n - 1]) && samples[n - 1].bootedAt != Some(UNIX_EPOCH);
  }

  lemma BootsTotalStep(samples: seq<Sample>, st: State)
    requires |samples| > 1
    requires var n := |samples| - 1; var last, s := samples[n - 1], samples[n];
      && last.bootedAt.Some? && s.bootedAt.Some?
      && last.bootedAt.value != UNIX_EPOCH && s.bootedAt.value != UNIX_EPOCH
      && (last.bootedAt == s.bootedAt ==> last.raw.AtMost(s.raw))
      && st.lastRaw == last.raw && st.lastBootUnix == BootUnix(last.bootedAt)
    ensures var n := |samples| - 1;
      && BootsTotal(samples) == BootsTotal(samples[..n]).Plus(Seen(st, samples[n]))
      && (st.lastRaw.AtMost(samples[n].raw) || Rebooted(st, samples[n]))
  {
  }

  lemma OneMoreSample(p: Plan, samples: seq<Sample>)
    requires samples != []
    ensures var n := |samples| - 1; Run(p, samples) == Adjust(p, Run(p, samples[..n]), samples[n])
  {
    hide Adjust;
  }

  lemma FirstBoot(p: Plan, samples: seq<Sample>, start: int)
    requires BootsInPeriod(p, samples, start) && |samples| == 1 && p.resetDay >= 1
    ensures Run(p, samples).total == samples[0].raw == BootsTotal(samples) && NeverOvertaken(p, samples)
  {
    assert samples[..0] == [];
    assert Run(p, []) == EMPTY && BootsTotal([]) == ZERO;
    FirstOfPeriodBills(p, EMPTY, samples[0]);
    hide Adjust;
  }

  /**
   With boots of known times inside one period, the total is the sum of the boots' last counters
   exactly as long as no counter has overtaken a total that held other boots too; after that it is less.
   */
  lemma {:induction false} BootsAddUp(p: Plan, samples: seq<Sample>, start: int)
    requires BootsInPeriod(p, samples, start) && samples != [] && p.resetDay >= 1
    ensures samples[|samples| - 1].raw.AtMost(Run(p, samples).total)
    ensures Run(p, samples).total.AtMost(BootsTotal(samples))
    ensures Run(p, samples).total == BootsTotal(samples) <==> NeverOvertaken(p, samples)
  {
    if |samples| == 1 {
      FirstBoot(p, samples, start);
    } else {
      var n := |samples| - 1;
      var st, s := Run(p, samples[..n]), samples[n];
      BootsPrefix(p, samples, start);
      BootsAddUp(p, samples[..n], start);
      BootsStep(p, samples, start);
      CoveredSampleBills(p, st, s);
      assert samples[..n][n - 1] == samples[n - 1];
      hide Adjust, Run, BootsTotal, BootsInPeriod;
      assert NeverOvertaken(p, samples)
         <==> NeverOvertaken(p, samples[..n]) && !(Overtakes(st, s) && st.total != st.lastRaw);
    }
  }

  // ----- What the samples show is billed -----

  /** One sample bills at least the counter's growth since the one before, and adds it to a total of the same period. */
  lemma GrowthIsBilled(p: Plan, st: State, s: Sample, first: Bytes)
    requires Sound(st) && ZERO.AtMost(first) && first.AtMost(st.lastRaw) && st.lastRaw.AtMost(s.raw)
    requires st.resetDay == p.resetDay && st.scope == p.scope && st.period.Some?
    requires st.period == Some(p.periodStart(s.now)) ==> st.lastRaw.Minus(first).AtMost(st.total)
    requires st.period != Some(p.periodStart(s.now)) ==> st.lastRaw == first
    ensures s.raw.Minus(first).AtMost(Adjust(p, st, s).total)
  {
  }

  /** From sample `i` on the counter only grows, and all later samples lie in the period of the last. */
  predicate GrowsInPeriod(p: Plan, samples: seq<Sample>, i: nat) {
    && i < |samples| && (forall j :: 0 <= j < |samples| ==> ZERO.AtMost(samples[j].raw))
    && (forall j :: i <= j < |samples| - 1 ==> samples[j].raw.AtMost(samples[j + 1].raw))
    && forall j :: i < j < |samples| ==> p.periodStart(samples[j].now) == p.periodStart(samples[|samples| - 1].now)
  }

  /**
   Whatever is known of boots, a period's total is at least the growth that the samples show of
   a counter: since any sample in the period, or since the last one before it.
   */
  lemma {:induction false} SeenGrowthIsBilled(p: Plan, samples: seq<Sample>, i: nat)
    requires GrowsInPeriod(p, samples, i)
    ensures samples[|samples| - 1].raw.Minus(samples[i].raw).AtMost(Run(p, samples).total)
  {
    var n := |samples| - 1;
    var before, s := samples[..n], samples[n];
    RunFacts(p, samples);
    if i < n {
      assert samples == before + [s];
      RunFacts(p, before);
      RunStep(p, before, s);
      assert GrowsInPeriod(p, before, i);
      SeenGrowthIsBilled(p, before, i);
      FirstIsLeast(samples, i, n - 1);
      hide Adjust, Run;
      if i < n - 1 { assert p.periodStart(before[n - 1].now) == p.periodStart(s.now); }
      GrowthIsBilled(p, Run(p, before), s, samples[i].raw);
    }
  }

  lemma {:induction false} FirstIsLeast(samples: seq<Sample>, i: nat, k: nat)
    requires i <= k < |samples| && forall j :: i <= j < k ==> samples[j].raw.AtMost(samples[j + 1].raw)
    ensures samples[i].raw.AtMost(samples[k].raw)
  {
    if i < k { FirstIsLeast(samples, i, k - 1); }
  }

  // ----- When the current boot is billed in full -----

  /**
   The stored record and the sample make the code count growth although the period's total
   does not yet hold the whole counter: same period, no change of boot to be seen, the total
   not below the counter on both sides, a counter that grew, and a total short of the last one.
   */
  predicate Undercounts(p: Plan, st: State, s: Sample) {
    var boot := BootUnix(s.bootedAt);
    && SamePeriod(p, st, p.periodStart(s.now))
    && (boot == 0 || st.lastBootUnix == 0 || st.lastBootUnix == boot)
    && !st.total.AtMost(s.raw) && st.lastRaw.AtMost(s.raw) && !st.lastRaw.AtMost(st.total)
  }

  /** A boot inside the period is billed in full exactly when record and sample do not undercount. */
  lemma BilledInFull(p: Plan, st: State, s: Sample)
    requires Sound(st) && ZERO.AtMost(st.lastRaw) && ZERO.AtMost(s.raw) && RawCovers(p.periodStart(s.now), s)
    ensures s.raw.AtMost(Adjust(p, st, s).total) <==> !Undercounts(p, st, s)
  {
  }

  /** The same after any run, with any reboots and unknown boot times. */
  lemma CurrentBootBilledExactly(p: Plan, samples: seq<Sample>, s: Sample)
    requires (forall x :: x in samples ==> ZERO.AtMost(x.raw)) && ZERO.AtMost(s.raw)
    requires RawCovers(p.periodStart(s.now), s)
    ensures s.raw.AtMost(Run(p, samples + [s]).total) <==> !Undercounts(p, Run(p, samples), s)
  {
    hide Adjust, Undercounts;
    RunFacts(p, samples);
    RunStep(p, samples, s);
    BilledInFull(p, Run(p, samples), s);
  }

  lemma RunStep(p: Plan, samples: seq<Sample>, s: Sample)
    ensures Run(p, samples + [s]) == Adjust(p, Run(p, samples), s)
  {
    assert (samples + [s])[..|samples|] == samples;
  }

  /** Samples whose boot times are known and not after them. */
  predicate KnownBoots(samples: seq<Sample>) {
    forall i :: 0 <= i < |samples| ==>
      && samples[i].bootedAt.Some? && BootUnix(samples[i].bootedAt) != 0
      && samples[i].bootedAt.value <= samples[i].now && ZERO.AtMost(samples[i].raw)
  }

  /** Known boot times never undercount: a boot that began inside the period is always billed in full. */
  lemma {:induction false} CurrentBootIsBilled(p: Plan, samples: seq<Sample>, s: Sample)
    requires KnownBoots(samples + [s]) && RawCovers(p.periodStart(s.now), s)
    ensures !Undercounts(p, Run(p, samples), s) && s.raw.AtMost(Run(p, samples + [s]).total)
    decreases |samples|
  {
    forall i | 0 <= i < |samples| ensures samples[i] == (samples + [s])[i] { }
    assert s == (samples + [s])[|samples|];
    RunFacts(p, samples);
    if samples != [] && SamePeriod(p, Run(p, samples), p.periodStart(s.now))
       && Run(p, samples).lastBootUnix == BootUnix(s.bootedAt) {
      var before, prev := samples[..|samples| - 1], samples[|samples| - 1];
      assert samples == before + [prev];
      assert RawCovers(p.periodStart(s.now), prev);
      CurrentBootIsBilled(p, before, prev);
    }
    CurrentBootBilledExactly(p, samples, s);
  }

  /** A record of the period that began at `start`, with the boot time unknown. */
  function Record(p: Plan, start: int, lastRaw: Bytes, total: Bytes): State {
    State(p.resetDay, Some(start), p.scope, lastRaw, total, ZERO, 0)
  }

  /** Samples of unknown boot count growth and ignore what falls. */
  lemma UnknownBootStep(p: Plan, start: int, lastRaw: Bytes, total: Bytes, s: Sample)
    requires p.periodStart(s.now) == start && s.bootedAt.None?
    ensures Adjust(p, Record(p, start, lastRaw, total), s)
         == Record(p, start, s.raw, total.Plus(Growth(lastRaw, s.raw, false)))
    ensures p.resetDay >= 1 ==> Adjust(p, EMPTY, s) == Record(p, start, s.raw, ZERO)
  {
  }

  /** Three samples of unknown boot in a period, the third after a reboot. */
  function UnknownBoots(start: int): seq<Sample> {
    [] + [Sample(Bytes(0, 100), start + 1, None)] + [Sample(Bytes(50, 100), start + 2, None)]
       + [Sample(Bytes(10, 10), start + 4, None)]
  }

  lemma UnknownBootsRun(p: Plan, start: int)
    requires p.resetDay >= 1 && p.periodStart(start + 1) == p.periodStart(start + 2) == p.periodStart(start + 4)
      == start
    ensures Run(p, UnknownBoots(start)) == Record(p, start, Bytes(10, 10), Bytes(50, 0))
  {
    hide Adjust, Run;
    var a, b := Sample(Bytes(0, 100), start + 1, None), Sample(Bytes(50, 100), start + 2, None);
    var c := Sample(Bytes(10, 10), start + 4, None);
    NothingRun(p);
    RunStep(p, [], a);
    UnknownBootStep(p, start, ZERO, ZERO, a);
    RunStep(p, [] + [a], b);
    UnknownBootStep(p, start, a.raw, ZERO, b);
    RunStep(p, [] + [a] + [b], c);
    UnknownBootStep(p, start, b.raw, Bytes(50, 0), c);
  }

  lemma NothingRun(p: Plan)
    ensures Run(p, []) == EMPTY
  {
  }

  /**
   Without known boot times it can fail, in every billing period of the agent's calendar: a
   boot inside the period that has moved 12 bytes down is billed fewer.
   */
  lemma UnknownBootUndercounts(day: int, scope: string, month: int)
    requires 1 <= day <= 31
    ensures var p, start := PlanOf(day, scope), Midnight(ActualResetDate(month, day));
      var last := Sample(Bytes(12, 12), start + 5, Some(start + 3));
      && RawCovers(p.periodStart(last.now), last) && Undercounts(p, Run(p, UnknownBoots(start)), last)
      && !last.raw.AtMost(Run(p, UnknownBoots(start) + [last]).total)
      && exists w, rs :: Legal(w, rs) && SamplesOf(w, rs) == UnknownBoots(start) + [last]
  {
    hide Run, ActualResetDate, LastResetDate, Legal;
    var p, start := PlanOf(day, scope), Midnight(ActualResetDate(month, day));
    var last := Sample(Bytes(12, 12), start + 5, Some(start + 3));
    assert NormalizeResetDay(day) == day;
    EarlyInPeriod(day, month, start + 1);
    EarlyInPeriod(day, month, start + 2);
    EarlyInPeriod(day, month, start + 4);
    EarlyInPeriod(day, month, start + 5);
    UnknownBootsRun(p, start);
    CurrentBootBilledExactly(p, UnknownBoots(start), last);
    var w, rs := UnknownBootsHappen(start);
  }

  /** A machine that moves 100, 50, 20 and 4 bytes and reboots at moment 3. */
  function MovedAt(i: nat): Bytes {
    if i == 0 then ZERO else if i == 1 then Bytes(0, 100) else if i <= 3 then Bytes(50, 100)
    else if i == 4 then Bytes(60, 110) else Bytes(62, 112)
  }

  /** A world with this clock and these bytes. */
  ghost predicate IsMachine(w: World, start: int) {
    forall i: nat :: w.clock(i) == start + i && w.moved(i) == MovedAt(i)
  }

  lemma MachineIsOnward(w: World, start: int)
    requires IsMachine(w, start)
    ensures OnwardWorld(w)
  {
    forall i: nat, j: nat | i <= j ensures w.clock(i) <= w.clock(j) && w.moved(i).AtMost(w.moved(j)) {
      MovedGrows(i, j);
    }
  }

  lemma MovedGrows(i: nat, j: nat)
    requires i <= j
    ensures MovedAt(i).AtMost(MovedAt(j))
  {
  }

  lemma MachineReading(w: World, start: int, at: nat, boot: nat, known: bool)
    requires IsMachine(w, start)
    ensures SampleOf(w, Reading(at, boot, known))
         == Sample(MovedAt(at).Minus(MovedAt(boot)), start + at, if known then Some(start + boot) else None)
  {
  }

  lemma Machine(start: int) returns (w: World)
    ensures IsMachine(w, start)
  {
    w := World((i: nat) => start + i, (i: nat) => MovedAt(i));
  }

  lemma BytesBefore()
    ensures MovedAt(1).Minus(MovedAt(0)) == Bytes(0, 100)
    ensures MovedAt(2).Minus(MovedAt(0)) == Bytes(50, 100)
  {
  }

  lemma BytesAfter()
    ensures MovedAt(4).Minus(MovedAt(3)) == Bytes(10, 10)
    ensures MovedAt(5).Minus(MovedAt(3)) == Bytes(12, 12)
  {
  }

  lemma FourSamples(w: World, a: Reading, b: Reading, c: Reading, d: Reading)
    ensures SamplesOf(w, [a, b, c, d]) == [SampleOf(w, a), SampleOf(w, b), SampleOf(w, c), SampleOf(w, d)]
  {
    hide SampleOf;
  }

  lemma FourReadingsAreLegal(w: World, a: Reading, b: Reading, c: Reading, d: Reading)
    requires OnwardWorld(w) && a.boot == b.boot <= a.at <= b.at <= c.boot == d.boot <= c.at <= d.at
    ensures Legal(w, [a, b, c, d])
  {
    hide OnwardWorld;
  }

  /** The failing samples are what that machine shows. */
  lemma UnknownBootsHappen(start: int) returns (w: World, rs: seq<Reading>)
    ensures Legal(w, rs)
    ensures SamplesOf(w, rs) == UnknownBoots(start) + [Sample(Bytes(12, 12), start + 5, Some(start + 3))]
  {
    BytesBefore();
    BytesAfter();
    hide IsMachine, OnwardWorld, SampleOf, SamplesOf, Legal, MovedAt;
    var a, b, c, d := Reading(1, 0, false), Reading(2, 0, false), Reading(4, 3, false), Reading(5, 3, true);
    w := Machine(start);
    rs := [a, b, c, d];
    MachineIsOnward(w, start);
    FourReadingsAreLegal(w, a, b, c, d);
    FourSamples(w, a, b, c, d);
    MachineReading(w, start, 1, 0, false);
    MachineReading(w, start, 2, 0, false);
    MachineReading(w, start, 4, 3, false);
    MachineReading(w, start, 5, 3, true);
  }

  // ----- Runs without a reboot -----

  /** One boot of known time, counters that only grow, a clock that never goes back. */
  predicate OneBoot(samples: seq<Sample>, boot: int) {
    && (forall i :: 0 <= i < |samples| ==>
          samples[i].bootedAt == Some(boot) && boot <= samples[i].now && ZERO.AtMost(samples[i].raw))
    && (forall i, j :: 0 <= i < j < |samples| ==>
          samples[i].now <= samples[j].now && samples[i].raw.AtMost(samples[j].raw))
  }

  function Billed(book: Ledger): Bytes {
    book.closed.Plus(book.state.total)
  }

  /** One more sample of the same boot adds exactly the counter's growth to what was ever billed. */
  lemma EntryAddsGrowth(p: Plan, book: Ledger, s: Sample, boot: int)
    requires var st := book.state;
             && Sound(st) && st.resetDay == p.resetDay && st.scope == p.scope && st.period.Some?
             && s.bootedAt == Some(boot) && st.lastBootUnix == BootUnix(Some(boot)) && st.lastRaw.AtMost(s.raw)
             && (p.periodStart(s.now) <= boot <= s.now ==>
                   st.period == Some(p.periodStart(s.now)) && st.total == st.lastRaw)
    ensures Billed(Enter(p, book, s)) == Billed(book).Plus(s.raw.Minus(book.state.lastRaw))
  {
  }

  /** Nothing is closed while the run is still in the period it began in. */
  lemma {:induction false} FirstPeriodOnly(p: Plan, samples: seq<Sample>)
    requires Lawful(p) && samples != [] && forall s :: s in samples ==> ZERO.AtMost(s.raw)
    requires forall i, j :: 0 <= i < j < |samples| ==> samples[i].now <= samples[j].now
    requires p.periodStart(samples[0].now) == p.periodStart(samples[|samples| - 1].now)
    ensures Book(p, samples).closed == ZERO
  {
    var n := |samples| - 1;
    if n > 0 {
      FirstPeriodOnly(p, samples[..n]);
      RunFacts(p, samples[..n]);
    }
  }

  /**
   Without a reboot nothing is lost or counted twice: the final totals of all periods add
   up to the counter's growth since the first sample, or to the whole counter when the
   machine booted inside the first period.
   */
  lemma {:induction false} PeriodsAddUp(p: Plan, samples: seq<Sample>, boot: int)
    requires Lawful(p) && samples != [] && OneBoot(samples, boot)
    ensures Billed(Book(p, samples)) ==
            if p.periodStart(samples[0].now) <= boot then samples[|samples| - 1].raw
            else samples[|samples| - 1].raw.Minus(samples[0].raw)
  {
    hide Adjust, Lawful, OneBoot, Enter;
    var n := |samples| - 1;
    var before, s := samples[..n], samples[n];
    OneBootFacts(p, samples, boot);
    if n == 0 {
      assert Book(p, before) == Ledger(EMPTY, ZERO);
      FirstEntry(p, s, boot);
    } else {
      PeriodsAddUp(p, before, boot);
      RunFacts(p, before);
      if p.periodStart(s.now) <= boot {
        FirstPeriodOnly(p, before);
      }
      EntryAddsGrowth(p, Book(p, before), s, boot);
    }
  }

  lemma FirstEntry(p: Plan, s: Sample, boot: int)
    requires p.resetDay >= 1 && s.bootedAt == Some(boot) && boot <= s.now
    ensures Billed(Enter(p, Ledger(EMPTY, ZERO), s)) == if p.periodStart(s.now) <= boot then s.raw else ZERO
  {
  }

  lemma OneBootFacts(p: Plan, samples: seq<Sample>, boot: int)
    requires Lawful(p) && samples != [] && OneBoot(samples, boot)
    ensures var n := |samples| - 1;
            var s := samples[n];
            && p.resetDay >= 1 && boot <= s.now && s.bootedAt == Some(boot)
            && (p.periodStart(s.now) <= boot ==> p.periodStart(samples[0].now) == p.periodStart(s.now))
            && (n > 0 ==>
                  && OneBoot(samples[..n], boot) && samples[n - 1].bootedAt == Some(boot)
                  && samples[n - 1].raw.AtMost(s.raw)
                  && (p.periodStart(s.now) <= boot ==> p.periodStart(samples[n - 1].now) == p.periodStart(s.now)))
    ensures forall s :: s in samples ==> ZERO.AtMost(s.raw)
    ensures forall i, j :: 0 <= i < j < |samples| ==> samples[i].now <= samples[j].now
  {
    assert boot <= samples[0].now;
  }

  /** Both bills, for the agent's own monthly calendar and any `-traffic-reset-day`. */
  lemma MonthlyBills(day: int, scope: string, w: World, rs: seq<Reading>, m: nat, samples: seq<Sample>, boot: int)
    ensures var p := PlanOf(NormalizeResetDay(day), scope);
            Legal(w, rs) && rs != [] && MayCountFrom(w, rs, LastResetDate(p.resetDay, w.clock(rs[|rs| - 1].at)), m)
            ==> Run(p, SamplesOf(w, rs)).total.AtMost(w.moved(rs[|rs| - 1].at).Minus(w.moved(m)))
    ensures var p := PlanOf(NormalizeResetDay(day), scope);
            samples != [] && OneBoot(samples, boot)
            ==> Billed(Book(p, samples)) ==
                if LastResetDate(p.resetDay, samples[0].now) <= boot then samples[|samples| - 1].raw
                else samples[|samples| - 1].raw.Minus(samples[0].raw)
  {
    hide LastResetDate, Lawful, Legal, OneBoot, MayCountFrom, Book;
    var p := PlanOf(NormalizeResetDay(day), scope);
    MonthlyPlanIsLawful(day, scope);
    if Legal(w, rs) && rs != [] && MayCountFrom(w, rs, LastResetDate(p.resetDay, w.clock(rs[|rs| - 1].at)), m) {
      BilledNeverExceedsMoved(p, w, rs, m);
    }
    if samples != [] && OneBoot(samples, boot) {
      PeriodsAddUp(p, samples, boot);
    }
  }
}
