/**
 The migration runner of the setup page (worker/src/routes/setup.ts). One caller retries
 over a database whose requests may never run, or run and lose their reply.
 */
module Migrations {

  import opened Wrappers

  datatype Migration = Migration(version: string, name: string, checksum: string, sql: string)

  /** The generated bundle: its versions are file names, so they are non-empty and distinct. */
  ghost predicate WellFormed(bundle: seq<Migration>) {
    && (forall i :: 0 <= i < |bundle| ==> bundle[i].version != "")
    && (forall i, j :: 0 <= i < j < |bundle| ==> bundle[i].version != bundle[j].version)
  }

  /** What the network does with one request. */
  datatype Outcome = Served | NeverRuns | ReplyLost

  /** Recorded checksums by version. */
  type Records = map<string, string>

  /** `table` is `setup_migrations`; `commits` lists every committed migration in order. */
  datatype Server = Server(table: Option<Records>, commits: seq<Migration>, network: seq<Outcome>)

  function NextOutcome(s: Server): Outcome {
    if s.network == [] then Served else s.network[0]
  }

  function Sent(s: Server): Server {
    s.(network := if s.network == [] then [] else s.network[1..])
  }

  datatype Status = Applied | Skipped
  datatype Line = Line(version: string, name: string, status: Status)
  datatype Reply = Done(total: nat, applied: nat, skipped: nat, results: seq<Line>) | Failed

  // ----- Single requests -----

  /** `create table if not exists` */
  function EnsureTable(s: Server): (Server, bool) {
    var out := NextOutcome(s);
    var done := Sent(s).(table := if s.table.None? then Some(map[]) else s.table);
    (if out.NeverRuns? then Sent(s) else done, out.Served?)
  }

  /** Rows with an empty version are dropped from the answer. */
  function Listed(t: Records): Records { map v | v in t && v != "" :: t[v] }

  function List(s: Server): (Server, Option<Records>) {
    (Sent(s), if NextOutcome(s).Served? && s.table.Some? then Some(Listed(s.table.value)) else None)
  }

  /** One transaction: the migration's SQL and its record, or nothing. */
  function Migrate(s: Server, m: Migration): (Server, bool) {
    var out := NextOutcome(s);
    if out.NeverRuns? || s.table.None? then (Sent(s), false)
    else (Sent(s).(table := Some(s.table.value[m.version := m.checksum]), commits := s.commits + [m]), out.Served?)
  }

  predicate Has(t: Records, m: Migration) { m.version in t && t[m.version] == m.checksum }

  // ----- One attempt -----

  /** What one bundled migration does: the new server, the caller's map, and its line unless the attempt ends. */
  function Item(s: Server, known: Records, m: Migration): (Server, Records, Option<Line>) {
    if Has(known, m) then (s, known, Some(Line(m.version, m.name, Skipped)))
    else
      var (ran, ok) := Migrate(s, m);
      if ok then (ran, known[m.version := m.checksum], Some(Line(m.version, m.name, Applied)))
      else
        var (after, listed) := List(ran);
        var seen := if listed.Some? then listed.value else known;
        if Has(seen, m) then (after, known[m.version := m.checksum], Some(Line(m.version, m.name, Skipped)))
        else (after, known, None)
  }

  function CountOf(results: seq<Line>, status: Status): nat {
    if results == [] then 0
    else CountOf(results[..|results| - 1], status) + (if results[|results| - 1].status == status then 1 else 0)
  }

  function Report(bundle: seq<Migration>, results: seq<Line>): Reply {
    Done(|bundle|, CountOf(results, Applied), CountOf(results, Skipped), results)
  }

  function Loop(s: Server, known: Records, bundle: seq<Migration>, results: seq<Line>): (Server, Reply)
    requires |results| <= |bundle|
    decreases |bundle| - |results|
  {
    if |results| == |bundle| then (s, Report(bundle, results))
    else
      var (next, now, line) := Item(s, known, bundle[|results|]);
      if line.None? then (next, Failed) else Loop(next, now, bundle, results + [line.value])
  }

  function Attempt(s: Server, bundle: seq<Migration>): (Server, Reply) {
    var (ready, made) := EnsureTable(s);
    if !made then (ready, Failed)
    else
      var (asked, listed) := List(ready);
      if listed.None? then (asked, Failed) else Loop(asked, listed.value, bundle, [])
  }

  /** The database object the runner talks to. */
  class Database {
    var table: Option<Records>
    var commits: seq<Migration>
    var network: seq<Outcome>

    function View(): Server reads this { Server(table, commits, network) }

    method TakeOutcome() returns (out: Outcome)
      modifies this`network
      ensures out == NextOutcome(old(View())) && View() == Sent(old(View()))
    {
      out := Served;
      if network != [] { out := network[0]; network := network[1..]; }
    }

    method Ensure() returns (ok: bool)
      modifies this
      ensures (View(), ok) == EnsureTable(old(View()))
    {
      var out := TakeOutcome();
      if !out.NeverRuns? && table.None? { table := Some(map[]); }
      ok := out.Served?;
    }

    method Select() returns (rows: Option<Records>)
      modifies this
      ensures (View(), rows) == List(old(View()))
    {
      var out := TakeOutcome();
      rows := if out.Served? && table.Some? then Some(Listed(table.value)) else None;
    }

    method Run(m: Migration) returns (ok: bool)
      modifies this
      ensures (View(), ok) == Migrate(old(View()), m)
    {
      var out := TakeOutcome();
      ok := false;
      if !out.NeverRuns? && table.Some? {
        table := Some(table.value[m.version := m.checksum]);
        commits := commits + [m];
        ok := out.Served?;
      }
    }
  }

  method ApplyBundledMigrations(db: Database, bundle: seq<Migration>) returns (reply: Reply)
    modifies db
    ensures (db.View(), reply) == Attempt(old(db.View()), bundle)
  {
    var made := db.Ensure();
    if !made { return Failed; }
    var rows := db.Select();
    if rows.None? { return Failed; }
    var known := rows.value;
    var results: seq<Line> := [];
    while |results| < |bundle|
      invariant |results| <= |bundle|
      invariant Loop(db.View(), known, bundle, results) == Attempt(old(db.View()), bundle)
      decreases |bundle| - |results|
    {
      var m := bundle[|results|];
      if Has(known, m) {
        results := results + [Line(m.version, m.name, Skipped)];
        continue;
      }
      var ok := db.Run(m);
      if ok {
        known := known[m.version := m.checksum];
        results := results + [Line(m.version, m.name, Applied)];
      } else {
        var listed := db.Select();
        var seen := if listed.Some? then listed.value else known;
        if !Has(seen, m) { return Failed; }
        known := known[m.version := m.checksum];
        results := results + [Line(m.version, m.name, Skipped)];
      }
    }
    reply := Report(bundle, results);
  }

  /** Said in fields: recorded means this version with this checksum, nothing less. */
  lemma RecordedMeans(t: Records, m: Migration, sum: string)
    ensures Has(t[m.version := sum], m) <==> sum == m.checksum
    ensures m.version !in t ==> !Has(t, m)
  {
  }

  /** A version recorded with another checksum is run again, once, and is then recorded with the new one. */
  lemma ChangedMigrationRunsAgain(s: Server, m: Migration, was: string)
    requires s.network == [] && s.table.Some? && m.version != ""
    requires m.version in s.table.value && s.table.value[m.version] == was != m.checksum
    ensures var (after, reply) := Attempt(s, [m]);
      && after.commits == s.commits + [m] && after.table == Some(s.table.value[m.version := m.checksum])
      && reply == Done(1, 1, 0, [Line(m.version, m.name, Applied)])
      && Attempt(after, [m]) == (after, Done(1, 0, 1, [Line(m.version, m.name, Skipped)]))
  {
    hide Migrate, EnsureTable, List;
    ServedRequests(s, m);
    var t := s.(table := Some(s.table.value[m.version := m.checksum]), commits := s.commits + [m]);
    ServedRequests(t, m);
    OneLine(m, Applied);
    OneLine(m, Skipped);
    var known, known' := Listed(s.table.value), Listed(t.table.value);
    assert known[m.version := m.checksum] == known';
    assert Item(s, known, m) == (t, known', Some(Line(m.version, m.name, Applied)));
    assert Loop(s, known, [m], []) == Loop(t, known', [m], [] + [Line(m.version, m.name, Applied)]);
    assert Item(t, known', m) == (t, known', Some(Line(m.version, m.name, Skipped)));
    assert Loop(t, known', [m], []) == Loop(t, known', [m], [] + [Line(m.version, m.name, Skipped)]);
  }

  /** On a network that spoils nothing. */
  lemma ServedRequests(s: Server, m: Migration)
    requires s.table.Some? && s.network == []
    ensures EnsureTable(s) == (s, true) && List(s) == (s, Some(Listed(s.table.value)))
    ensures Migrate(s, m)
         == (s.(table := Some(s.table.value[m.version := m.checksum]), commits := s.commits + [m]), true)
  {
  }

  lemma OneLine(m: Migration, status: Status)
    ensures var line := Line(m.version, m.name, status);
      var applied := if status == Applied then 1 else 0;
      Report([m], [] + [line]) == Done(1, applied, 1 - applied, [line])
  {
    var lines := [] + [Line(m.version, m.name, status)];
    assert lines[..0] == [] && |lines| == 1;
    assert forall st :: CountOf(lines, st) == CountOf(lines[..0], st) + (if status == st then 1 else 0);
  }

  /**
   Exactly when one migration that is not recorded gets past: its request was answered, or it ran, its reply
   was lost and the listing that follows was answered. Then it has committed once, and is called skipped.
   */
  lemma LostReplyIsFoundOut(s: Server, m: Migration)
    requires s.table.Some? && m.version != "" && !Has(s.table.value, m)
    ensures var (after, known, line) := Item(s, Listed(s.table.value), m);
      var lost := NextOutcome(s).ReplyLost? && NextOutcome(Sent(s)).Served?;
      && (line.Some? <==> NextOutcome(s).Served? || lost)
      && (line.Some? ==> line.value == Line(m.version, m.name, if lost then Skipped else Applied))
      && after.commits == (if NextOutcome(s).NeverRuns? then s.commits else s.commits + [m])
      && after.table == if NextOutcome(s).NeverRuns? then s.table else Some(s.table.value[m.version := m.checksum])
  {
  }

  // ----- Where a database stands -----

  /** The migrations of `ms` that a table starting as `t` lacks. */
  ghost function Missing(t: Records, ms: seq<Migration>): seq<Migration> {
    if ms == [] then []
    else Missing(t, ms[..|ms| - 1]) + (if Has(t, ms[|ms| - 1]) then [] else [ms[|ms| - 1]])
  }

  /** The table `t` once all of `ms` are recorded. */
  ghost function Recorded(t: Records, ms: seq<Migration>): Records {
    if ms == [] then t else Recorded(t, ms[..|ms| - 1])[ms[|ms| - 1].version := ms[|ms| - 1].checksum]
  }

  ghost function Contents(s: Server): Records { if s.table.None? then map[] else s.table.value }

  /** Exactly the first `k` bundled migrations are done, counting those `t` began with. */
  ghost predicate At(s: Server, t: Records, bundle: seq<Migration>, k: nat) {
    && k <= |bundle|
    && s.commits == Missing(t, bundle[..k])
    && Contents(s) == Recorded(t, bundle[..k])
  }

  lemma {:induction false} RecordedHas(t: Records, bundle: seq<Migration>, k: nat, i: nat)
    requires WellFormed(bundle) && i < k <= |bundle|
    ensures Has(Recorded(t, bundle[..k]), bundle[i])
  {
    assert bundle[..k][..k - 1] == bundle[..k - 1];
    if i < k - 1 { RecordedHas(t, bundle, k - 1, i); }
  }

  lemma {:induction false} RecordedLeavesOthers(t: Records, bundle: seq<Migration>, k: nat, i: nat)
    requires WellFormed(bundle) && k <= i < |bundle|
    ensures Has(Recorded(t, bundle[..k]), bundle[i]) == Has(t, bundle[i])
  {
    if k > 0 {
      assert bundle[..k][..k - 1] == bundle[..k - 1];
      RecordedLeavesOthers(t, bundle, k - 1, i);
    }
  }

  lemma {:induction false} MissingFromEmpty(ms: seq<Migration>)
    ensures Missing(map[], ms) == ms
  {
    if ms != [] { MissingFromEmpty(ms[..|ms| - 1]); }
  }

  /** Taking one more migration of the bundle into account. */
  lemma Advance(s: Server, t: Records, bundle: seq<Migration>, k: nat, after: Server)
    requires WellFormed(bundle) && k < |bundle| && At(s, t, bundle, k) && s.table.Some?
    requires if Has(s.table.value, bundle[k]) then after.table == s.table && after.commits == s.commits
             else Committed(s, bundle[k], after)
    ensures At(after, t, bundle, k + 1)
  {
    assert bundle[..k + 1][..k] == bundle[..k];
    RecordedLeavesOthers(t, bundle, k, k);
  }

  // ----- One attempt keeps the prefix -----

  /** The caller's map is the table it would be listed. */
  ghost predicate UpToDate(s: Server, known: Records) {
    s.table.Some? && known == Listed(s.table.value)
  }

  /** The migration ran, and its record with it. */
  ghost predicate Committed(s: Server, m: Migration, after: Server) {
    && s.table.Some? && after.table == Some(s.table.value[m.version := m.checksum])
    && after.commits == s.commits + [m]
  }

  /** A recorded migration is left alone; another one either commits or ends the attempt. */
  lemma ItemEffect(s: Server, known: Records, m: Migration)
    requires UpToDate(s, known) && m.version != ""
    ensures var (after, seen, line) := Item(s, known, m);
      && (if Has(s.table.value, m) then line.Some? && line.value.status == Skipped && after == s
          else Committed(s, m, after) || (line.None? && after.table == s.table && after.commits == s.commits))
      && (line.Some? ==> UpToDate(after, seen) && line.value.version == m.version && line.value.name == m.name)
  {
    assert Has(known, m) == Has(s.table.value, m);
    var (after, seen, line) := Item(s, known, m);
    if Committed(s, m, after) { assert known[m.version := m.checksum] == Listed(after.table.value); }
  }

  lemma ItemKeepsPrefix(s: Server, known: Records, t: Records, bundle: seq<Migration>, i: nat, k: nat) returns (k': nat)
    requires WellFormed(bundle) && i < |bundle| && i <= k && At(s, t, bundle, k) && UpToDate(s, known)
    ensures var (after, seen, line) := Item(s, known, bundle[i]);
      k <= k' && At(after, t, bundle, k') && (line.Some? ==> i < k' && UpToDate(after, seen))
  {
    hide Item;
    var m := bundle[i];
    var (after, seen, line) := Item(s, known, m);
    ItemEffect(s, known, m);
    k' := k;
    if i < k {
      RecordedHas(t, bundle, k, i);
    } else if Has(s.table.value, m) || Committed(s, m, after) {
      k' := k + 1;
      Advance(s, t, bundle, k, after);
    }
  }

  lemma {:induction false} LoopKeepsPrefix(s: Server, known: Records, t: Records, bundle: seq<Migration>,
      results: seq<Line>, k: nat)
    returns (k': nat)
    requires WellFormed(bundle) && |results| <= k && At(s, t, bundle, k) && UpToDate(s, known)
    ensures var (after, reply) := Loop(s, known, bundle, results);
      k <= k' && At(after, t, bundle, k') && (reply.Done? ==> k' == |bundle|)
    decreases |bundle| - |results|
  {
    k' := k;
    if |results| < |bundle| {
      var (next, now, line) := Item(s, known, bundle[|results|]);
      k' := ItemKeepsPrefix(s, known, t, bundle, |results|, k);
      if line.Some? { k' := LoopKeepsPrefix(next, now, t, bundle, results + [line.value], k'); }
    }
  }

  lemma AttemptKeepsPrefix(s: Server, t: Records, bundle: seq<Migration>, k: nat) returns (k': nat)
    requires WellFormed(bundle) && At(s, t, bundle, k)
    ensures var (after, reply) := Attempt(s, bundle);
      k <= k' && At(after, t, bundle, k') && (reply.Done? ==> k' == |bundle|)
  {
    var (ready, made) := EnsureTable(s);
    k' := k;
    assert At(ready, t, bundle, k);
    if made {
      var (asked, listed) := List(ready);
      assert At(asked, t, bundle, k);
      if listed.Some? { k' := LoopKeepsPrefix(asked, listed.value, t, bundle, [], k); }
    }
  }

  // ----- Any sequence of attempts -----

  ghost function Attempts(s: Server, bundle: seq<Migration>, n: nat): (Server, seq<Reply>) {
    if n == 0 then (s, [])
    else
      var (before, replies) := Attempts(s, bundle, n - 1);
      var (after, reply) := Attempt(before, bundle);
      (after, replies + [reply])
  }

  ghost predicate SomeSucceeded(replies: seq<Reply>) {
    exists i :: 0 <= i < |replies| && replies[i].Done?
  }

  /** A database on which no bundled migration has been run by this caller. */
  ghost predicate Untouched(s: Server) { s.commits == [] }

  lemma {:induction false} AttemptsKeepPrefix(s: Server, bundle: seq<Migration>, n: nat) returns (k: nat)
    requires WellFormed(bundle) && Untouched(s)
    ensures var (after, replies) := Attempts(s, bundle, n);
      At(after, Contents(s), bundle, k) && (SomeSucceeded(replies) ==> k == |bundle|)
  {
    if n == 0 {
      k := 0;
    } else {
      var (before, replies) := Attempts(s, bundle, n - 1);
      var j := AttemptsKeepPrefix(s, bundle, n - 1);
      k := AttemptKeepsPrefix(before, Contents(s), bundle, j);
    }
  }

  ghost predicate Distinct(ms: seq<Migration>) {
    forall i, j :: 0 <= i < j < |ms| ==> ms[i] != ms[j]
  }

  lemma {:induction false} MissingIsPart(t: Records, ms: seq<Migration>)
    requires WellFormed(ms)
    ensures Distinct(Missing(t, ms))
    ensures forall m <- Missing(t, ms) :: m in ms && !Has(t, m)
    ensures forall m <- ms :: m in Missing(t, ms) || Has(t, m)
  {
    if ms != [] {
      MissingIsPart(t, ms[..|ms| - 1]);
      assert forall i :: 0 <= i < |ms| - 1 ==> ms[i] != ms[|ms| - 1];
    }
  }

  /**
   Over any sequence of attempts against any network, starting from any table: each bundled
   migration commits at most once, and only if the table lacked its checksum; the table is
   the old one with a prefix of the bundle recorded; once an attempt has succeeded
   everything is recorded, and every migration that was missing has committed.
   */
  lemma AttemptsAreSafe(s: Server, bundle: seq<Migration>, n: nat)
    requires WellFormed(bundle) && Untouched(s)
    ensures var (after, replies) := Attempts(s, bundle, n);
      && Distinct(after.commits)
      && (forall m <- after.commits :: m in bundle && !Has(Contents(s), m))
      && (exists k: nat :: At(after, Contents(s), bundle, k))
      && (SomeSucceeded(replies) ==>
            forall m <- bundle :: Has(Contents(after), m) && (m in after.commits <==> !Has(Contents(s), m)))
  {
    var (after, replies) := Attempts(s, bundle, n);
    var k := AttemptsKeepPrefix(s, bundle, n);
    MissingIsPart(Contents(s), bundle[..k]);
    if SomeSucceeded(replies) {
      assert bundle[..k] == bundle;
      forall i | 0 <= i < |bundle| ensures Has(Contents(after), bundle[i])
        { RecordedHas(Contents(s), bundle, |bundle|, i); }
    }
  }

  ghost predicate HoldsPrefix(s: Server, bundle: seq<Migration>, k: nat) {
    k <= |bundle| && s.commits == bundle[..k] && Contents(s) == Recorded(map[], bundle[..k])
  }

  /**
   From an empty or absent table, the committed migrations and the records are one and the
   same prefix of the bundle.
   */
  lemma FreshDatabaseHoldsPrefix(s: Server, bundle: seq<Migration>, n: nat)
    requires WellFormed(bundle) && Untouched(s) && Contents(s) == map[]
    ensures var (after, replies) := Attempts(s, bundle, n);
      exists k: nat :: HoldsPrefix(after, bundle, k) && (SomeSucceeded(replies) ==> k == |bundle|)
  {
    var k := AttemptsKeepPrefix(s, bundle, n);
    MissingFromEmpty(bundle[..k]);
    assert HoldsPrefix(Attempts(s, bundle, n).0, bundle, k);
  }

  // ----- The report -----

  lemma {:induction false} CountsAddUp(results: seq<Line>)
    ensures CountOf(results, Applied) + CountOf(results, Skipped) == |results|
  {
    if results != [] { CountsAddUp(results[..|results| - 1]); }
  }

  /** Every line so far names its migration, and one reported as applied has committed since `start` commits. */
  ghost predicate Honest(s: Server, start: nat, bundle: seq<Migration>, results: seq<Line>) {
    && |results| <= |bundle| && start <= |s.commits|
    && forall i :: 0 <= i < |results| ==>
         && results[i].version == bundle[i].version && results[i].name == bundle[i].name
         && (results[i].status == Applied ==> bundle[i] in s.commits[start..])
  }

  /** One line more. */
  lemma HonestStep(s: Server, next: Server, start: nat, bundle: seq<Migration>, results: seq<Line>, line: Line)
    requires Honest(s, start, bundle, results) && |results| < |bundle|
    requires next.commits == s.commits || next.commits == s.commits + [bundle[|results|]]
    requires line.status == Applied ==> next.commits == s.commits + [bundle[|results|]]
    requires line.version == bundle[|results|].version && line.name == bundle[|results|].name
    ensures Honest(next, start, bundle, results + [line])
  {
    var i := |results|;
    assert next.commits[start..] == s.commits[start..] || next.commits[start..] == s.commits[start..] + [bundle[i]];
    assert line.status == Applied ==> next.commits[start..] == s.commits[start..] + [bundle[i]];
  }

  lemma {:induction false} LoopIsHonest(s: Server, known: Records, t: Records, bundle: seq<Migration>,
      results: seq<Line>, k: nat, start: nat)
    requires WellFormed(bundle) && |results| <= k && At(s, t, bundle, k) && UpToDate(s, known)
    requires Honest(s, start, bundle, results)
    ensures var (after, reply) := Loop(s, known, bundle, results);
      reply.Done? ==>
        && |reply.results| == |bundle| && Honest(after, start, bundle, reply.results)
        && reply == Report(bundle, reply.results)
    decreases |bundle| - |results|
  {
    assert |results| <= |bundle|;
    if |results| < |bundle| {
      hide Item, At, UpToDate, Honest, Report;
      var m := bundle[|results|];
      var (next, now, line) := Item(s, known, m);
      var k' := ItemKeepsPrefix(s, known, t, bundle, |results|, k);
      ItemLine(s, known, m);
      if line.Some? {
        HonestStep(s, next, start, bundle, results, line.value);
        LoopIsHonest(next, now, t, bundle, results + [line.value], k', start);
      }
    }
  }

  /** A line names its migration; if it says applied, that is what was committed last. */
  lemma ItemLine(s: Server, known: Records, m: Migration)
    requires UpToDate(s, known) && m.version != ""
    ensures var (after, _, line) := Item(s, known, m);
      line.Some? ==>
        && (after.commits == s.commits || after.commits == s.commits + [m])
        && (line.value.status == Applied ==> after.commits == s.commits + [m])
        && line.value.version == m.version && line.value.name == m.name
  {
    hide Item;
    ItemEffect(s, known, m);
  }

  /**
   A success reports one line per bundled migration, in order; what it calls applied was
   committed by this very attempt.
   */
  lemma SuccessReportIsHonest(s: Server, t: Records, bundle: seq<Migration>, k: nat)
    requires WellFormed(bundle) && At(s, t, bundle, k)
    ensures var (after, reply) := Attempt(s, bundle);
      reply.Done? ==>
        (reply.applied + reply.skipped == reply.total == |bundle| == |reply.results| &&
          Honest(after, |s.commits|, bundle, reply.results))
  {
    var (ready, made) := EnsureTable(s);
    if made {
      var (asked, listed) := List(ready);
      if listed.Some? {
        assert At(asked, t, bundle, k);
        LoopIsHonest(asked, listed.value, t, bundle, [], k, |s.commits|);
        var (after, reply) := Attempt(s, bundle);
        if reply.Done? { CountsAddUp(reply.results); }
      }
    }
  }

  // ----- Progress -----

  /** The requests the network will still spoil. */
  ghost function Faults(network: seq<Outcome>): nat {
    if network == [] then 0 else (if network[0].Served? then 0 else 1) + Faults(network[1..])
  }

  /** An item that ends the attempt has met a spoiled request. */
  lemma ItemFailsByFault(s: Server, known: Records, m: Migration)
    requires s.table.Some?
    ensures var (after, _, line) := Item(s, known, m);
      Faults(after.network) <= Faults(s.network) && (line.None? ==> Faults(after.network) < Faults(s.network))
  {
  }

  lemma {:induction false} LoopFailsByFault(s: Server, known: Records, bundle: seq<Migration>, results: seq<Line>)
    requires WellFormed(bundle) && |results| <= |bundle| && UpToDate(s, known)
    ensures var (after, reply) := Loop(s, known, bundle, results);
      && Faults(after.network) <= Faults(s.network)
      && (reply.Failed? ==> Faults(after.network) < Faults(s.network))
    decreases |bundle| - |results|
  {
    if |results| < |bundle| {
      var (next, now, line) := Item(s, known, bundle[|results|]);
      ItemEffect(s, known, bundle[|results|]);
      ItemFailsByFault(s, known, bundle[|results|]);
      if line.Some? { LoopFailsByFault(next, now, bundle, results + [line.value]); }
    }
  }

  lemma AttemptFailsByFault(s: Server, bundle: seq<Migration>)
    requires WellFormed(bundle)
    ensures var (after, reply) := Attempt(s, bundle);
      && Faults(after.network) <= Faults(s.network)
      && (reply.Failed? ==> Faults(after.network) < Faults(s.network))
  {
    var (ready, made) := EnsureTable(s);
    if made {
      var (asked, listed) := List(ready);
      if listed.Some? { LoopFailsByFault(asked, listed.value, bundle, []); }
    }
  }

  lemma {:induction false} FailuresUseUpFaults(s: Server, bundle: seq<Migration>, n: nat)
    requires WellFormed(bundle)
    ensures var (after, replies) := Attempts(s, bundle, n);
      |replies| == n && (!SomeSucceeded(replies) ==> Faults(after.network) + n <= Faults(s.network))
  {
    if n > 0 {
      hide Attempt, Faults;
      var (before, replies) := Attempts(s, bundle, n - 1);
      FailuresUseUpFaults(s, bundle, n - 1);
      AttemptFailsByFault(before, bundle);
      var (_, all) := Attempts(s, bundle, n);
      assert forall i :: 0 <= i < n - 1 ==> replies[i] == all[i];
      assert SomeSucceeded(replies) || all[n - 1].Done? ==> SomeSucceeded(all);
    }
  }

  /** `f` spoiled requests cost at most `f` attempts: one of any `f + 1` succeeds. */
  lemma RetryingSucceeds(s: Server, bundle: seq<Migration>, n: nat)
    requires WellFormed(bundle) && n > Faults(s.network)
    ensures SomeSucceeded(Attempts(s, bundle, n).1)
  {
    FailuresUseUpFaults(s, bundle, n);
  }
}
