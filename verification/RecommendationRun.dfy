/** The nightly recommendation run of apps/worker/src/recommendations-cron.ts over the stored rows,
    together with the owner's "done" and "dismiss" of apps/web/app/(shell)/recommendations/actions.ts. */
module RecommendationRun {
  import opened Numbers
  import opened RecommendationRules
  import opened Sorting
  import opened Wrappers

  const DISMISS_DAYS := 90
  const DONE_DAYS := 30

  datatype Status = Open | Done | Dismissed | Resolved

  /** The unique (product, action) of a tenant's rows. */
  datatype Key = Key(productId: string, action: Action)

  datatype Wording = Wording(reason: string, idea: string)

  /** What the rules say today, with the plain sentence that goes with it. */
  datatype Verdict = Verdict(rec: Recommendation, reason: string)

  datatype Row = Row(status: Status, snoozedUntil: Option<int>, resolvedAt: Option<int>, verdict: Verdict,
                     wording: Option<Wording>)

  type Rows = map<Key, Row>

  function KeyOf(v: Verdict): Key { Key(v.rec.productId, v.rec.action) }

  ghost predicate DistinctVerdicts(verdicts: seq<Verdict>) {
    forall i, j :: 0 <= i < j < |verdicts| ==> KeyOf(verdicts[i]) != KeyOf(verdicts[j])
  }

  /** Today's recommendations, each with its sentence. */
  function Sentences(recs: seq<Recommendation>, reasonOf: Recommendation -> string): seq<Verdict> {
    Map(recs, (r: Recommendation) => Verdict(r, reasonOf(r)))
  }

  /** The unique keys that the rules guarantee are those the run needs. */
  lemma RulesGiveDistinctVerdicts(recs: seq<Recommendation>, reasonOf: Recommendation -> string)
    ensures DistinctVerdicts(Sentences(recs, reasonOf)) <==> DistinctKeys(recs)
  {
    var verdicts := Sentences(recs, reasonOf);
    if DistinctVerdicts(verdicts) {
      forall i, j | 0 <= i < j < |recs|
        ensures recs[i].productId != recs[j].productId || recs[i].action != recs[j].action
      {
        assert KeyOf(verdicts[i]) != KeyOf(verdicts[j]);
      }
    }
  }

  // ---------------------------------------------------------------- one row

  predicate Quiet(rows: Rows, k: Key, now: int) {
    k in rows && (rows[k].status.Done? || rows[k].status.Dismissed?) && rows[k].snoozedUntil.Some?
      && rows[k].snoozedUntil.value > now
  }

  predicate IsOpen(rows: Rows, k: Key) { k in rows && rows[k].status.Open? }

  /** The run puts this live key on the list, and it was not there before. */
  predicate Opens(rows: Rows, now: int, k: Key) { !IsOpen(rows, k) && !Quiet(rows, k, now) }

  predicate Reworded(rows: Rows, v: Verdict) { KeyOf(v) in rows && rows[KeyOf(v)].verdict.reason != v.reason }

  predicate WantsWording(rows: Rows, now: int, v: Verdict) {
    !Quiet(rows, KeyOf(v), now) && (KeyOf(v) !in rows || Reworded(rows, v) || rows[KeyOf(v)].wording.None?)
  }

  /** The row a verdict leaves behind. */
  function Judge(rows: Rows, v: Verdict, now: int): Row {
    var k := KeyOf(v);
    if k !in rows then Row(Open, None, None, v, None)
    else
      var prior := rows[k].(verdict := v, wording := if Reworded(rows, v) then None else rows[k].wording);
      if Opens(rows, now, k) then prior.(status := Open, resolvedAt := None, snoozedUntil := None) else prior
  }

  /** The row a key without a verdict leaves behind. */
  function Unjudged(row: Row, now: int): Row {
    if row.status.Open? then row.(status := Resolved, resolvedAt := Some(now)) else row
  }

  function WithWording(row: Row, k: Key, wording: map<Key, Wording>): Row {
    if k in wording then row.(wording := Some(wording[k])) else row
  }

  // ---------------------------------------------------------------- the whole run

  function LiveKeys(verdicts: seq<Verdict>): set<Key> { set v | v in verdicts :: KeyOf(v) }

  function KeysWhere(verdicts: seq<Verdict>, p: Key -> bool): set<Key> {
    set v | v in verdicts && p(KeyOf(v)) :: KeyOf(v)
  }

  /** Every verdict written, each against the rows as they were read at the start. */
  function Judged(rows: Rows, verdicts: seq<Verdict>, now: int): Rows {
    if verdicts == [] then rows
    else
      var v := verdicts[|verdicts| - 1];
      Judged(rows, verdicts[..|verdicts| - 1], now)[KeyOf(v) := Judge(rows, v, now)]
  }

  function Stale(rows: Rows, verdicts: seq<Verdict>): set<Key> {
    set k | k in rows && rows[k].status.Open? && k !in LiveKeys(verdicts)
  }

  function Resolve(rows: Rows, stale: set<Key>, now: int): Rows {
    map k | k in rows :: if k in stale then rows[k].(status := Resolved, resolvedAt := Some(now)) else rows[k]
  }

  function Worded(rows: Rows, wording: map<Key, Wording>): Rows {
    map k | k in rows :: WithWording(rows[k], k, wording)
  }

  function NeedsWording(rows: Rows, verdicts: seq<Verdict>, now: int): seq<Verdict> {
    if verdicts == [] then []
    else
      var v := verdicts[|verdicts| - 1];
      NeedsWording(rows, verdicts[..|verdicts| - 1], now) + (if WantsWording(rows, now, v) then [v] else [])
  }

  function WordingFor(items: seq<Verdict>, word: seq<Verdict> -> map<Key, Wording>): map<Key, Wording> {
    if items == [] then map[] else word(items)
  }

  function AfterRun(rows: Rows, verdicts: seq<Verdict>, now: int, wording: map<Key, Wording>): Rows {
    Worded(Resolve(Judged(rows, verdicts, now), Stale(rows, verdicts), now), wording)
  }

  function OpenKeys(rows: Rows): set<Key> { set k | k in rows && rows[k].status.Open? }

  lemma LiveKeysStep(verdicts: seq<Verdict>)
    requires verdicts != []
    ensures LiveKeys(verdicts) == LiveKeys(verdicts[..|verdicts| - 1]) + {KeyOf(verdicts[|verdicts| - 1])}
  {
    var n := |verdicts| - 1;
    assert verdicts == verdicts[..n] + [verdicts[n]];
  }

  lemma {:induction false} JudgedKeys(rows: Rows, verdicts: seq<Verdict>, now: int)
    ensures Judged(rows, verdicts, now).Keys == rows.Keys + LiveKeys(verdicts)
    ensures forall k :: k in rows && k !in LiveKeys(verdicts) ==> Judged(rows, verdicts, now)[k] == rows[k]
  {
    if verdicts == [] {
    } else {
      var n := |verdicts| - 1;
      hide Judge;
      JudgedKeys(rows, verdicts[..n], now);
      LiveKeysStep(verdicts);
    }
  }

  lemma {:induction false} JudgedAt(rows: Rows, verdicts: seq<Verdict>, now: int, i: nat)
    requires DistinctVerdicts(verdicts) && i < |verdicts|
    ensures KeyOf(verdicts[i]) in Judged(rows, verdicts, now)
    ensures Judged(rows, verdicts, now)[KeyOf(verdicts[i])] == Judge(rows, verdicts[i], now)
  {
    var n := |verdicts| - 1;
    if i >= n {
    } else {
      JudgedAt(rows, verdicts[..n], now, i);
    }
  }

  /** Row by row, what the run leaves: a live key as the rules judge it, an open row nothing
      justifies any more as resolved, every other row as it was; no row is dropped. */
  lemma RunAt(rows: Rows, verdicts: seq<Verdict>, now: int, wording: map<Key, Wording>, k: Key)
    requires DistinctVerdicts(verdicts)
    ensures k in AfterRun(rows, verdicts, now, wording) <==> k in rows || k in LiveKeys(verdicts)
    ensures k in rows && k !in LiveKeys(verdicts)
      ==> AfterRun(rows, verdicts, now, wording)[k] == WithWording(Unjudged(rows[k], now), k, wording)
    ensures forall i :: 0 <= i < |verdicts| && KeyOf(verdicts[i]) == k ==>
              k in AfterRun(rows, verdicts, now, wording)
                && AfterRun(rows, verdicts, now, wording)[k] == WithWording(Judge(rows, verdicts[i], now), k, wording)
  {
    JudgedKeys(rows, verdicts, now);
    forall i | 0 <= i < |verdicts| && KeyOf(verdicts[i]) == k
      ensures Judged(rows, verdicts, now).Keys >= {k}
        && Judged(rows, verdicts, now)[k] == Judge(rows, verdicts[i], now)
    {
      JudgedAt(rows, verdicts, now, i);
      assert k in LiveKeys(verdicts);
    }
  }

  /** After a run the open rows are exactly the live keys that are not snoozed. */
  lemma OpenAfterRun(rows: Rows, verdicts: seq<Verdict>, now: int, wording: map<Key, Wording>)
    requires DistinctVerdicts(verdicts)
    ensures OpenKeys(AfterRun(rows, verdicts, now, wording)) == KeysWhere(verdicts, k => !Quiet(rows, k, now))
  {
    var after := AfterRun(rows, verdicts, now, wording);
    forall k ensures IsOpen(after, k) <==> k in LiveKeys(verdicts) && !Quiet(rows, k, now) {
      RunAt(rows, verdicts, now, wording, k);
      if k in LiveKeys(verdicts) {
        var i := IndexOf(verdicts, k);
      }
    }
    forall k ensures k in OpenKeys(after) <==> k in KeysWhere(verdicts, k => !Quiet(rows, k, now)) {
      assert IsOpen(after, k) <==> k in LiveKeys(verdicts) && !Quiet(rows, k, now);
    }
  }

  /** The keys counted as opened and as resolved are the ones that entered and left the list. */
  lemma OpenedAndResolved(rows: Rows, verdicts: seq<Verdict>, now: int, wording: map<Key, Wording>)
    requires DistinctVerdicts(verdicts)
    ensures var after := AfterRun(rows, verdicts, now, wording);
      && KeysWhere(verdicts, k => Opens(rows, now, k)) == OpenKeys(after) - OpenKeys(rows)
      && Stale(rows, verdicts) == OpenKeys(rows) - OpenKeys(after)
  {
    OpenAfterRun(rows, verdicts, now, wording);
  }

  lemma Balance(before: set<Key>, after: set<Key>)
    ensures |after| == |before| + |after - before| - |before - after|
  {
    assert after == (after - before) + (after * before);
    assert before == (before - after) + (after * before);
  }

  lemma NoKeysYet(verdicts: seq<Verdict>, p: Key -> bool)
    ensures KeysWhere(verdicts[..0], p) == {}
  {}

  lemma CountStep(verdicts: seq<Verdict>, i: nat, p: Key -> bool)
    requires i < |verdicts| && DistinctVerdicts(verdicts)
    ensures |KeysWhere(verdicts[..i + 1], p)|
      == |KeysWhere(verdicts[..i], p)| + (if p(KeyOf(verdicts[i])) then 1 else 0)
  {
    var k, seen := KeyOf(verdicts[i]), KeysWhere(verdicts[..i], p);
    assert verdicts[..i + 1] == verdicts[..i] + [verdicts[i]];
    assert k !in seen;
    assert KeysWhere(verdicts[..i + 1], p) == if p(k) then seen + {k} else seen;
  }

  // ---------------------------------------------------------------- the second run

  lemma {:induction false} NeedsExactly(rows: Rows, verdicts: seq<Verdict>, now: int, v: Verdict)
    ensures v in NeedsWording(rows, verdicts, now) <==> v in verdicts && WantsWording(rows, now, v)
  {
    if verdicts == [] {
    } else {
      var n := |verdicts| - 1;
      NeedsExactly(rows, verdicts[..n], now, v);
      assert verdicts == verdicts[..n] + [verdicts[n]];
    }
  }

  /** Judged again by the same verdicts on the same clock, no row changes. */
  lemma JudgedAgain(rows: Rows, verdicts: seq<Verdict>, now: int, wording: map<Key, Wording>, i: nat)
    requires DistinctVerdicts(verdicts) && i < |verdicts|
    ensures var once, v := AfterRun(rows, verdicts, now, wording), verdicts[i];
      && KeyOf(v) in once && Judge(once, v, now) == once[KeyOf(v)]
      && (WantsWording(once, now, v) <==> WantsWording(rows, now, v) && KeyOf(v) !in wording)
  {
    RunAt(rows, verdicts, now, wording, KeyOf(verdicts[i]));
  }

  lemma JudgedOverAgain(rows: Rows, verdicts: seq<Verdict>, now: int, wording: map<Key, Wording>)
    requires DistinctVerdicts(verdicts)
    ensures var once := AfterRun(rows, verdicts, now, wording); Judged(once, verdicts, now) == once
  {
    var once := AfterRun(rows, verdicts, now, wording);
    var judged := Judged(once, verdicts, now);
    JudgedKeys(once, verdicts, now);
    forall k | k in judged ensures k in once && judged[k] == once[k] {
      RunAt(rows, verdicts, now, wording, k);
      if k in LiveKeys(verdicts) {
        var i := IndexOf(verdicts, k);
        JudgedAt(once, verdicts, now, i);
        JudgedAgain(rows, verdicts, now, wording, i);
      }
    }
  }

  lemma IndexOf(verdicts: seq<Verdict>, k: Key) returns (i: nat)
    requires k in LiveKeys(verdicts)
    ensures i < |verdicts| && KeyOf(verdicts[i]) == k
  {
    var v :| v in verdicts && KeyOf(v) == k;
    i :| 0 <= i < |verdicts| && verdicts[i] == v;
  }

  lemma NothingStaleTwice(rows: Rows, verdicts: seq<Verdict>, now: int, wording: map<Key, Wording>)
    requires DistinctVerdicts(verdicts)
    ensures var once := AfterRun(rows, verdicts, now, wording);
      Stale(once, verdicts) == {} && KeysWhere(verdicts, k => Opens(once, now, k)) == {}
  {
    var once := AfterRun(rows, verdicts, now, wording);
    OpenAfterRun(rows, verdicts, now, wording);
    forall k | k in once && once[k].status.Open? ensures k in LiveKeys(verdicts) {
      assert k in OpenKeys(once);
    }
    forall v | v in verdicts ensures !Opens(once, now, KeyOf(v)) {
      assert KeyOf(v) in LiveKeys(verdicts);
      var i := IndexOf(verdicts, KeyOf(v));
      RunAt(rows, verdicts, now, wording, KeyOf(v));
    }
  }

  lemma NoMembers(verdicts: seq<Verdict>)
    ensures verdicts == [] || exists v :: v in verdicts
  {
    assert verdicts == [] || verdicts[0] in verdicts;
  }

  /** A second run on the same facts and clock opens and resolves nothing and changes no row but by
      wording it; it asks again only for wordings the first run did not get, and if the first run
      got them all it leaves the rows exactly as they are. */
  lemma SecondRunIsQuiet(rows: Rows, verdicts: seq<Verdict>, now: int, first: map<Key, Wording>,
                         word: seq<Verdict> -> map<Key, Wording>)
    requires DistinctVerdicts(verdicts)
    ensures var once := AfterRun(rows, verdicts, now, first);
      var second := WordingFor(NeedsWording(once, verdicts, now), word);
      && AfterRun(once, verdicts, now, second) == Worded(once, second)
      && KeysWhere(verdicts, k => Opens(once, now, k)) == {} && Stale(once, verdicts) == {}
      && (forall v ::
        v in NeedsWording(once, verdicts, now) <==> v in NeedsWording(rows, verdicts, now) && KeyOf(v) !in first)
      && ((forall v :: v in NeedsWording(rows, verdicts, now) ==> KeyOf(v) in first)
        ==> AfterRun(once, verdicts, now, second) == once)
  {
    var once := AfterRun(rows, verdicts, now, first);
    NothingStaleTwice(rows, verdicts, now, first);
    JudgedOverAgain(rows, verdicts, now, first);
    assert Resolve(once, {}, now) == once;
    forall v ensures v in NeedsWording(once, verdicts, now)
      <==> v in NeedsWording(rows, verdicts, now) && KeyOf(v) !in first
    {
      NeedsExactly(once, verdicts, now, v);
      NeedsExactly(rows, verdicts, now, v);
      if v in verdicts {
        var i :| 0 <= i < |verdicts| && verdicts[i] == v;
        JudgedAgain(rows, verdicts, now, first, i);
      }
    }
    if forall v :: v in NeedsWording(rows, verdicts, now) ==> KeyOf(v) in first {
      NoMembers(NeedsWording(once, verdicts, now));
      assert Worded(once, map[]) == once;
    }
  }

  // ---------------------------------------------------------------- histories

  datatype Outcome = MarkDone | Dismiss

  /** Ninety days after a dismissal, thirty after being done. */
  function QuietMs(outcome: Outcome): int { (if outcome.Dismiss? then 90 else 30) * DAY_MS }

  /** The owner closes a row; only an open row can be closed. */
  function AfterClose(rows: Rows, k: Key, outcome: Outcome, at: int): Rows {
    if IsOpen(rows, k) then
      rows[k := rows[k].(status := if outcome.Dismiss? then Dismissed else Done,
                         resolvedAt := Some(at), snoozedUntil := Some(at + QuietMs(outcome)))]
    else rows
  }

  datatype Event =
    | Nightly(verdicts: seq<Verdict>, now: int, wording: map<Key, Wording>)
    | CloseOne(key: Key, outcome: Outcome, now: int)

  ghost predicate Legal(e: Event) { e.Nightly? ==> DistinctVerdicts(e.verdicts) }

  function Step(rows: Rows, e: Event): Rows {
    match e
    case Nightly(verdicts, now, wording) => AfterRun(rows, verdicts, now, wording)
    case CloseOne(key, outcome, now) => AfterClose(rows, key, outcome, now)
  }

  function Replay(rows: Rows, events: seq<Event>): Rows {
    if events == [] then rows else Step(Replay(rows, events[..|events| - 1]), events[|events| - 1])
  }

  /** An open row carries no closing date and no snooze, a closed one its closing date, and one the
      owner closed also its snooze. */
  ghost predicate RowWellKept(k: Key, row: Row) {
    && (row.status.Open? ==> row.resolvedAt.None? && row.snoozedUntil.None?)
    && (!row.status.Open? ==> row.resolvedAt.Some?)
    && (row.status.Done? || row.status.Dismissed? ==> row.snoozedUntil.Some?)
    && row.verdict.rec.productId == k.productId && row.verdict.rec.action == k.action
  }

  ghost predicate WellKept(rows: Rows) { forall k :: k in rows ==> RowWellKept(k, rows[k]) }

  lemma JudgeKeepsWell(rows: Rows, v: Verdict, now: int, wording: map<Key, Wording>)
    requires WellKept(rows)
    ensures RowWellKept(KeyOf(v), WithWording(Judge(rows, v, now), KeyOf(v), wording))
  {}

  lemma NightKeepsRow(rows: Rows, verdicts: seq<Verdict>, now: int, wording: map<Key, Wording>, k: Key)
    requires WellKept(rows) && DistinctVerdicts(verdicts) && k in AfterRun(rows, verdicts, now, wording)
    ensures RowWellKept(k, AfterRun(rows, verdicts, now, wording)[k])
  {
    RunAt(rows, verdicts, now, wording, k);
    if k in LiveKeys(verdicts) {
      var i := IndexOf(verdicts, k);
      hide AfterRun;
      JudgeKeepsWell(rows, verdicts[i], now, wording);
    }
  }

  lemma StepKeepsWell(rows: Rows, e: Event)
    requires WellKept(rows) && Legal(e)
    ensures WellKept(Step(rows, e)) && rows.Keys <= Step(rows, e).Keys
  {
    if e.Nightly? {
      hide AfterRun, RowWellKept;
      forall k | k in rows ensures k in Step(rows, e) { RunAt(rows, e.verdicts, e.now, e.wording, k); }
      forall k | k in Step(rows, e) ensures RowWellKept(k, Step(rows, e)[k]) {
        NightKeepsRow(rows, e.verdicts, e.now, e.wording, k);
      }
    }
  }

  /** Whatever the order of runs and owner actions, the table stays well kept. */
  lemma {:induction false} EveryHistoryIsWellKept(events: seq<Event>)
    requires forall i :: 0 <= i < |events| ==> Legal(events[i])
    ensures WellKept(Replay(map[], events))
  {
    if events == [] {
    } else {
      var n := |events| - 1;
      EveryHistoryIsWellKept(events[..n]);
      StepKeepsWell(Replay(map[], events[..n]), events[n]);
    }
  }

  lemma QuietStep(rows: Rows, e: Event, k: Key)
    requires Legal(e) && Quiet(rows, k, e.now)
    ensures k in Step(rows, e) && Step(rows, e)[k].status == rows[k].status
      && Step(rows, e)[k].snoozedUntil == rows[k].snoozedUntil
  {
    if e.Nightly? {
      RunAt(rows, e.verdicts, e.now, e.wording, k);
      if k in LiveKeys(e.verdicts) {
        var i := IndexOf(e.verdicts, k);
      }
    }
  }

  /** A closed row stays exactly as closed through every run and every click before its snooze ends. */
  lemma {:induction false} SnoozeIsKept(rows: Rows, events: seq<Event>, k: Key)
    requires forall i :: 0 <= i < |events| ==> Legal(events[i]) && Quiet(rows, k, events[i].now)
    requires k in rows
    ensures var after := Replay(rows, events);
      k in after && after[k].status == rows[k].status && after[k].snoozedUntil == rows[k].snoozedUntil
  {
    if events == [] {
    } else {
      var n := |events| - 1;
      SnoozeIsKept(rows, events[..n], k);
      QuietStep(Replay(rows, events[..n]), events[n], k);
    }
  }

  /** A recommendation the owner closes is off the list until its 30 or 90 days are over, and the
      first run after that puts it back exactly when it still applies. */
  lemma ClosedThenBack(rows: Rows, k: Key, outcome: Outcome, at: int, between: seq<Event>, run: Event)
    requires IsOpen(rows, k) && run.Nightly? && Legal(run)
    requires forall i :: 0 <= i < |between| ==> Legal(between[i]) && between[i].now < at + QuietMs(outcome)
    ensures var later := Replay(AfterClose(rows, k, outcome, at), between);
      && !IsOpen(later, k)
      && (IsOpen(Step(later, run), k) <==> k in LiveKeys(run.verdicts) && run.now >= at + QuietMs(outcome))
  {
    var closed := AfterClose(rows, k, outcome, at);
    SnoozeIsKept(closed, between, k);
    var later := Replay(closed, between);
    OpenAfterRun(later, run.verdicts, run.now, run.wording);
    assert IsOpen(Step(later, run), k) <==> k in OpenKeys(Step(later, run));
    if k in LiveKeys(run.verdicts) {
      var v :| v in run.verdicts && KeyOf(v) == k;
    }
  }

  // ---------------------------------------------------------------- the stored rows

  class Recommendations {
    var rows: Rows

    constructor ()
      ensures rows == map[]
    {
      rows := map[];
    }

    /** One nightly run. The counts it reports are the true ones. */
    method Run(verdicts: seq<Verdict>, now: int, word: seq<Verdict> -> map<Key, Wording>)
      returns (openCount: nat, openedCount: nat, resolvedCount: nat, wordedCount: nat)
      requires DistinctVerdicts(verdicts)
      modifies this
      ensures rows == AfterRun(old(rows), verdicts, now, WordingFor(NeedsWording(old(rows), verdicts, now), word))
      ensures openCount == |OpenKeys(rows)|
      ensures openedCount == |OpenKeys(rows) - OpenKeys(old(rows))|
      ensures resolvedCount == |OpenKeys(old(rows)) - OpenKeys(rows)|
      ensures openCount == |OpenKeys(old(rows))| + openedCount - resolvedCount
      ensures wordedCount == |WordingFor(NeedsWording(old(rows), verdicts, now), word)|
    {
      hide KeysWhere, OpenKeys, Resolve, Worded, LiveKeys, Stale;
      var existing := rows;
      NoKeysYet(verdicts, k => Opens(existing, now, k));
      var needsWording: seq<Verdict> := [];
      openedCount := 0;
      for i := 0 to |verdicts|
        invariant rows == Judged(existing, verdicts[..i], now)
        invariant needsWording == NeedsWording(existing, verdicts[..i], now)
        invariant openedCount == |KeysWhere(verdicts[..i], k => Opens(existing, now, k))|
      {
        var v := verdicts[i];
        var k := KeyOf(v);
        CountStep(verdicts, i, k => Opens(existing, now, k));
        assert verdicts[..i + 1][..i] == verdicts[..i];
        if k !in existing {
          rows := rows[k := Row(Open, None, None, v, None)];
          openedCount := openedCount + 1;
          needsWording := needsWording + [v];
        } else {
          var prior := existing[k];
          var quiet := Quiet(existing, k, now);
          var reopen := !prior.status.Open? && !quiet;
          var changed := prior.verdict.reason != v.reason;
          var row := prior.(verdict := v);
          if reopen { row := row.(status := Open, resolvedAt := None, snoozedUntil := None); }
          if changed { row := row.(wording := None); }
          rows := rows[k := row];
          if reopen { openedCount := openedCount + 1; }
          if (reopen || prior.status.Open?) && (changed || prior.wording.None?) {
            needsWording := needsWording + [v];
          }
        }
      }
      assert verdicts[..|verdicts|] == verdicts;

      var stale := Stale(existing, verdicts);
      rows := Resolve(rows, stale, now);
      resolvedCount := |stale|;

      var wording := WordingFor(needsWording, word);
      WriteWording(wording);
      wordedCount := |wording|;

      openCount := CountOpen(existing, verdicts, now);
      OpenAfterRun(existing, verdicts, now, wording);
      OpenedAndResolved(existing, verdicts, now, wording);
      Balance(OpenKeys(existing), OpenKeys(rows));
    }

    /** The rules and the run together. Whatever was on the list before, afterwards it holds exactly what
        the rules say today and the owner has not put off. */
    method RunTenant(products: seq<Product>, windowDays: int, reasonOf: Recommendation -> string, now: int,
                     word: seq<Verdict> -> map<Key, Wording>)
      returns (openCount: nat, openedCount: nat, resolvedCount: nat, wordedCount: nat,
               ghost anchors: map<string, Product>)
      requires DistinctProducts(products)
      modifies this
      ensures AnchorsOf(products, anchors)
      ensures OpenKeys(rows) == Wanted(products, anchors, windowDays, old(rows), now)
      ensures openCount == |OpenKeys(rows)|
      ensures openedCount == |OpenKeys(rows) - OpenKeys(old(rows))|
      ensures resolvedCount == |OpenKeys(old(rows)) - OpenKeys(rows)|
    {
      var recs: seq<Recommendation>;
      recs, anchors := RecommendFor(products, windowDays);
      var verdicts := Sentences(recs, reasonOf);
      RulesGiveDistinctVerdicts(recs, reasonOf);
      ghost var before := rows;
      openCount, openedCount, resolvedCount, wordedCount := Run(verdicts, now, word);
      OpenAfterRun(before, verdicts, now, WordingFor(NeedsWording(before, verdicts, now), word));
      WantedIsLive(products, anchors, windowDays, recs, reasonOf, before, now);
    }

    /** One update a wording; a wording for a key without a row touches nothing. */
    method WriteWording(wording: map<Key, Wording>)
      modifies this
      ensures rows == Worded(old(rows), wording)
    {
      var todo := wording.Keys;
      ghost var before := rows;
      while todo != {}
        invariant todo <= wording.Keys
        invariant rows.Keys == before.Keys
        invariant forall k ::
          k in rows
          ==> rows[k] == if k in wording && k !in todo then before[k].(wording := Some(wording[k])) else before[k]
      {
        var k :| k in todo;
        if k in rows {
          rows := rows[k := rows[k].(wording := Some(wording[k]))];
        }
        todo := todo - {k};
      }
    }

    /** Marks a row done or dismissed; refused unless it is open. */
    method Close(k: Key, outcome: Outcome, now: int) returns (closed: bool)
      modifies this
      ensures rows == AfterClose(old(rows), k, outcome, now)
      ensures closed <==> OpenKeys(rows) != OpenKeys(old(rows))
    {
      closed := k in rows && rows[k].status.Open?;
      if closed {
        assert k in OpenKeys(rows);
        var status := match outcome case MarkDone => Done case Dismiss => Dismissed;
        var days := match outcome case MarkDone => DONE_DAYS case Dismiss => DISMISS_DAYS;
        rows := rows[k := rows[k].(status := status, resolvedAt := Some(now),
          snoozedUntil := Some(now + days * DAY_MS))];
        assert k !in OpenKeys(rows);
      }
    }
  }

  /** What the rules say, less what is snoozed. */
  ghost function Wanted(products: seq<Product>, anchors: map<string, Product>, windowDays: int, rows: Rows,
                        now: int): set<Key> {
    set r | r in AllRules(products, anchors, windowDays) && !Quiet(rows, Key(r.productId, r.action), now) ::
      Key(r.productId, r.action)
  }

  lemma WantedIsLive(products: seq<Product>, anchors: map<string, Product>, windowDays: int, recs: seq<Recommendation>,
                     reasonOf: Recommendation -> string, rows: Rows, now: int)
    requires multiset(recs) == multiset(AllRules(products, anchors, windowDays))
    ensures KeysWhere(Sentences(recs, reasonOf), k => !Quiet(rows, k, now))
      == Wanted(products, anchors, windowDays, rows, now)
  {
    var verdicts, rules := Sentences(recs, reasonOf), AllRules(products, anchors, windowDays);
    hide AllRules, Quiet;
    forall k ensures k in KeysWhere(verdicts, k => !Quiet(rows, k, now))
      <==> k in Wanted(products, anchors, windowDays, rows, now)
    {
      if v :| v in verdicts && !Quiet(rows, KeyOf(v), now) && KeyOf(v) == k {
        var i :| 0 <= i < |verdicts| && verdicts[i] == v;
        assert recs[i] in multiset(recs);
        assert recs[i] in multiset(rules);
      }
      if r :| r in rules && !Quiet(rows, Key(r.productId, r.action), now) && Key(r.productId, r.action) == k {
        assert r in multiset(rules);
        assert r in multiset(recs);
        var i :| 0 <= i < |recs| && recs[i] == r;
        assert verdicts[i] in verdicts && KeyOf(verdicts[i]) == k;
      }
    }
  }

  /** How many verdicts are on the list after the run. */
  method CountOpen(existing: Rows, verdicts: seq<Verdict>, now: int) returns (openCount: nat)
    requires DistinctVerdicts(verdicts)
    ensures openCount == |KeysWhere(verdicts, k => !Quiet(existing, k, now))|
  {
    openCount := 0;
    for i := 0 to |verdicts|
      invariant openCount == |KeysWhere(verdicts[..i], k => !Quiet(existing, k, now))|
    {
      var k := KeyOf(verdicts[i]);
      CountStep(verdicts, i, k => !Quiet(existing, k, now));
      if k !in existing || existing[k].status.Open?
        || !((existing[k].status.Done? || existing[k].status.Dismissed?) && existing[k].snoozedUntil.Some?
          && existing[k].snoozedUntil.value > now) {
        openCount := openCount + 1;
      }
    }
    assert verdicts[..|verdicts|] == verdicts;
  }
}
