/** The probe manager (internal/probe): a capped history per container stands
    in for an unbounded failure counter, and every change of health is
    reported as one transition. */
module Probes {
  import opened Domain
  import opened Decimals
  import opened Journal

  const HISTORY_CAP := 32

  datatype ProbeResult = ProbeResult(at: int, healthy: bool, err: Option<string>)

  datatype Snapshot = Snapshot(id: string, healthOk: bool, lastProbeAt: int, lastErr: string, streak: nat)

  // ---------- pure view of a run of results ----------

  function LastN(rs: seq<ProbeResult>, n: nat): seq<ProbeResult> {
    if |rs| <= n then rs else rs[|rs| - n..]
  }

  /** How many results at the end of the run are failures, without bound. */
  function TailFailures(rs: seq<ProbeResult>): nat {
    if rs == [] || rs[|rs| - 1].healthy then 0 else 1 + TailFailures(rs[..|rs| - 1])
  }

  function Min(a: nat, b: nat): nat {
    if a <= b then a else b
  }

  function ErrText(r: ProbeResult): string {
    if r.healthy || r.err.None? then "" else r.err.value
  }

  /** The last result was healthy; before the first one the answer is no. */
  predicate HealthyAfter(rs: seq<ProbeResult>) {
    rs != [] && rs[|rs| - 1].healthy
  }

  function SnapshotAfter(id: string, rs: seq<ProbeResult>): Snapshot {
    if rs == [] then Snapshot(id, false, 0, "", 0)
    else
      var last := rs[|rs| - 1];
      Snapshot(id, last.healthy, last.at, ErrText(last), Min(HISTORY_CAP, TailFailures(rs)))
  }

  datatype Transition = Transition(from: bool, to: bool, streak: nat)

  /** The transition the last result of the run causes, if any. */
  function LastTransition(rs: seq<ProbeResult>): seq<Transition>
    requires rs != []
  {
    var before, after := HealthyAfter(rs[..|rs| - 1]), HealthyAfter(rs);
    if before == after then [] else [Transition(before, after, Min(HISTORY_CAP, TailFailures(rs)))]
  }

  /** All transitions of a run, from the moment the container is tracked. */
  function Transitions(rs: seq<ProbeResult>): seq<Transition> {
    if rs == [] then [] else Transitions(rs[..|rs| - 1]) + LastTransition(rs)
  }

  lemma TransitionsStep(rs: seq<ProbeResult>, r: ProbeResult)
    ensures Transitions(rs + [r]) == Transitions(rs) + LastTransition(rs + [r])
  {
    assert (rs + [r])[..|rs|] == rs;
  }

  lemma LastNAppend(rs: seq<ProbeResult>, r: ProbeResult)
    ensures LastN(LastN(rs, HISTORY_CAP) + [r], HISTORY_CAP) == LastN(rs + [r], HISTORY_CAP)
  {
  }

  lemma {:induction false} TailFailuresBound(rs: seq<ProbeResult>)
    ensures TailFailures(rs) <= |rs|
  {
    if rs != [] { TailFailuresBound(rs[..|rs| - 1]); }
  }

  lemma LastNEnd(rs: seq<ProbeResult>, n: nat)
    requires n > 0 && rs != []
    ensures var w := LastN(rs, n);
            w != [] && w[|w| - 1] == rs[|rs| - 1] && w[..|w| - 1] == LastN(rs[..|rs| - 1], n - 1)
  {
  }

  /** The capped history counts failures exactly, up to its capacity. */
  lemma {:induction false} StreakRefinesCounter(rs: seq<ProbeResult>, n: nat)
    ensures TailFailures(LastN(rs, n)) == Min(n, TailFailures(rs))
  {
    TailFailuresBound(rs);
    if n > 0 && rs != [] {
      StreakRefinesCounter(rs[..|rs| - 1], n - 1);
      LastNEnd(rs, n);
    }
  }

  /** `ts` alternates from the unhealthy state, falls carry streak 1 and
      recoveries streak 0. */
  predicate Alternates(ts: seq<Transition>) {
    forall i | 0 <= i < |ts| ::
      ts[i] == if i % 2 == 0 then Transition(false, true, 0) else Transition(true, false, 1)
  }

  lemma LastTransitionShape(rs: seq<ProbeResult>)
    requires rs != []
    ensures var before := HealthyAfter(rs[..|rs| - 1]);
            LastTransition(rs) == if before == HealthyAfter(rs) then []
                                  else if before then [Transition(true, false, 1)] else [Transition(false, true, 0)]
  {
    assert HealthyAfter(rs[..|rs| - 1]) ==> TailFailures(rs[..|rs| - 1]) == 0;
  }

  /** Transitions strictly alternate, start by leaving the unhealthy state and
      end in the current one. */
  lemma {:induction false} TransitionsAlternate(rs: seq<ProbeResult>)
    ensures Alternates(Transitions(rs))
    ensures HealthyAfter(rs) <==> |Transitions(rs)| % 2 == 1
    ensures Transitions(rs) != [] ==> HealthyAfter(rs) == Transitions(rs)[|Transitions(rs)| - 1].to
  {
    if rs != [] {
      TransitionsAlternate(rs[..|rs| - 1]);
      LastTransitionShape(rs);
    }
  }

  // ---------- the history ring ----------

  class History {
    ghost const owner: string
    var entries: seq<ProbeResult>

    constructor (ghost owner: string)
      ensures this.owner == owner && entries == []
    {
      this.owner, entries := owner, [];
    }

    method Append(r: ProbeResult)
      modifies this
      ensures entries == LastN(old(entries) + [r], HISTORY_CAP)
    {
      entries := entries + [r];
      if |entries| > HISTORY_CAP {
        entries := entries[|entries| - HISTORY_CAP..];
      }
    }

    method Streak() returns (n: nat)
      ensures n == TailFailures(entries)
    {
      n := 0;
      assert entries[..|entries|] == entries;
      var i := |entries| - 1;
      while i >= 0
        invariant -1 <= i < |entries|
        invariant TailFailures(entries) == n + TailFailures(entries[..i + 1])
      {
        assert entries[..i + 1][..i] == entries[..i];
        if entries[i].healthy { break; }
        n := n + 1;
        i := i - 1;
      }
    }

    method LastErr() returns (s: string)
      ensures s == if entries == [] then "" else ErrText(entries[|entries| - 1])
    {
      if |entries| == 0 { return ""; }
      var last := entries[|entries| - 1];
      if last.healthy || last.err == None { return ""; }
      return last.err.value;
    }
  }

  // ---------- tracked containers ----------

  /** One audit record. */
  datatype EventRecord = EventRecord(kind: string, actor: string, target: string, payload: string)

  function HealthWord(healthy: bool): string {
    if healthy then "healthy" else "unhealthy"
  }

  function ShortId(id: string): string {
    if |id| > 12 then id[..12] else id
  }

  function Payload(t: Transition): string {
    "{\"from\":\"" + HealthWord(t.from) + "\",\"to\":\"" + HealthWord(t.to) + "\",\"streak\":" + Format(t.streak) + "}"
  }

  function RecordOf(id: string, t: Transition): EventRecord {
    EventRecord("probe.transition", "reconciler", "container:" + ShortId(id), Payload(t))
  }

  /** The record of a transition tells all of it. */
  lemma RecordTells(id: string, t: Transition, u: Transition)
    requires t.from != t.to && u.from != u.to
    ensures RecordOf(id, t) == RecordOf(id, u) <==> t == u
  {
    if Payload(t) == Payload(u) {
      PayloadFrom(t);
      PayloadFrom(u);
      var head := "{\"from\":\"" + HealthWord(t.from) + "\",\"to\":\"" + HealthWord(t.to) + "\",\"streak\":";
      assert Payload(t)[|head|..|Payload(t)| - 1] == Digits(t.streak);
      assert Payload(u)[|head|..|Payload(u)| - 1] == Digits(u.streak);
      DigitsInjective(t.streak, u.streak);
    }
  }

  lemma PayloadFrom(t: Transition)
    ensures |Payload(t)| > 9 && (Payload(t)[9] == 'h' <==> t.from)
  {
    var open, rest := "{\"from\":\"", "\",\"to\":\"" + HealthWord(t.to) + "\",\"streak\":" + Format(t.streak) + "}";
    assert Payload(t) == open + HealthWord(t.from) + rest;
    assert (open + HealthWord(t.from) + rest)[9] == HealthWord(t.from)[0];
  }

  /** What the audit sink gets for one transition, or for none. */
  function Reported(hasSink: bool, id: string, ts: seq<Transition>): seq<EventRecord> {
    if hasSink && ts != [] then [RecordOf(id, ts[0])] else []
  }

  predicate IsEmptyHealth(h: HealthCheck) {
    h.path == "" && h.command == []
  }

  class Entry {
    ghost const id: string
    var snapshot: Snapshot
    const history: History
    const specHash: string
    const probed: bool

    constructor (id: string, specHash: string, probed: bool)
      ensures fresh(history) && Shows(id, Tracking(probed, specHash, []))
    {
      this.id, this.specHash, this.probed := id, specHash, probed;
      snapshot := Snapshot(id, !probed, 0, "", 0);
      history := new History(id);
    }

    /** The entry is the concrete form of what is known of container `id`. */
    ghost predicate Shows(id: string, t: Tracking)
      reads this, history
    {
      && this.id == id && history.owner == id && specHash == t.specHash && probed == t.probed
      && history.entries == LastN(t.results, HISTORY_CAP)
      && snapshot == SnapshotOf(id, t)
    }

    /** Appends to the history and refreshes the snapshot from it. */
    method Record(r: ProbeResult, ghost t: Tracking)
      requires Shows(id, t) && probed
      modifies this`snapshot, history
      ensures history.entries == LastN(t.results + [r], HISTORY_CAP)
      ensures snapshot == SnapshotAfter(id, t.results + [r])
    {
      history.Append(r);
      LastNAppend(t.results, r);
      StreakRefinesCounter(t.results + [r], HISTORY_CAP);
      var streak := history.Streak();
      var lastErr := history.LastErr();
      snapshot := Snapshot(snapshot.id, r.healthy, r.at, lastErr, streak);
    }
  }

  /** What is known of a tracked container: whether it is probed at all, the
      digest of its probe settings, and every result so far. */
  datatype Tracking = Tracking(probed: bool, specHash: string, results: seq<ProbeResult>)

  predicate HealthOk(t: Tracking) {
    !t.probed || HealthyAfter(t.results)
  }

  function SnapshotOf(id: string, t: Tracking): Snapshot {
    if t.probed then SnapshotAfter(id, t.results) else Snapshot(id, true, 0, "", 0)
  }

  /** The same entry, with more results if it is probed. */
  ghost predicate Gained(before: Tracking, after: Tracking) {
    && after.probed == before.probed && after.specHash == before.specHash
    && before.results <= after.results
    && (!before.probed ==> after == before)
  }

  /** The later view adds results to probed containers and changes nothing else. */
  ghost predicate Later(before: map<string, Tracking>, after: map<string, Tracking>) {
    && after.Keys == before.Keys
    && forall id | id in before :: Gained(before[id], after[id])
  }

  /** So does it for all containers but those in `ids`. */
  ghost predicate LaterBut(before: map<string, Tracking>, after: map<string, Tracking>, ids: set<string>) {
    forall id | id !in ids :: (id in before <==> id in after) && (id in before ==> Gained(before[id], after[id]))
  }

  lemma LaterIsBut(before: map<string, Tracking>, after: map<string, Tracking>, ids: set<string>)
    requires Later(before, after)
    ensures LaterBut(before, after, ids)
  {
  }

  lemma LaterButTrans(a: map<string, Tracking>, b: map<string, Tracking>, c: map<string, Tracking>, ids: set<string>, ids': set<string>)
    requires LaterBut(a, b, ids) && LaterBut(b, c, ids')
    ensures LaterBut(a, c, ids + ids')
  {
  }

  lemma LaterButMore(before: map<string, Tracking>, after: map<string, Tracking>, ids: set<string>, ids': set<string>)
    requires LaterBut(before, after, ids) && ids <= ids'
    ensures LaterBut(before, after, ids')
  {
  }

  lemma TrackedBut(view: map<string, Tracking>, id: string, digest: string, spec: TaskDef)
    ensures LaterBut(view, Tracked(view, id, digest, spec), {id})
  {
  }

  lemma UntrackedBut(view: map<string, Tracking>, id: string)
    ensures LaterBut(view, view - {id}, {id})
  {
  }

  lemma LaterTrans(a: map<string, Tracking>, b: map<string, Tracking>, c: map<string, Tracking>)
    requires Later(a, b) && Later(b, c)
    ensures Later(a, c)
  {
  }

  function StartTracking(digest: string, spec: TaskDef): Tracking {
    Tracking(!IsEmptyHealth(spec.health), digest, [])
  }

  /** `Track` on the view: same settings keep the entry, others restart it. */
  function Tracked(view: map<string, Tracking>, id: string, digest: string, spec: TaskDef): map<string, Tracking> {
    if id == "" || (id in view && view[id].specHash == digest) then view
    else view[id := StartTracking(digest, spec)]
  }

  lemma RemoveThenSet<K, V>(m: map<K, V>, k: K, v: V)
    ensures (m - {k})[k := v] == m[k := v]
  {
  }

  function Recorded(view: map<string, Tracking>, id: string, r: ProbeResult): map<string, Tracking>
    requires id in view
  {
    view[id := view[id].(results := view[id].results + [r])]
  }

  lemma RecordedLater(view: map<string, Tracking>, id: string, r: ProbeResult)
    requires id in view && view[id].probed
    ensures Later(view, Recorded(view, id, r))
  {
  }

  // ---------- what the sink got ----------

  /** One emission: the container and its transition. */
  datatype Emission = Emission(id: string, t: Transition)

  /** The sink's records of some emissions. */
  function Records(sent: seq<Emission>): (es: seq<EventRecord>)
    ensures |es| == |sent| && forall i | 0 <= i < |sent| :: es[i] == RecordOf(sent[i].id, sent[i].t)
  {
    seq(|sent|, i requires 0 <= i < |sent| => RecordOf(sent[i].id, sent[i].t))
  }

  /** The emissions of one container. */
  function Of(sent: seq<Emission>, id: string): seq<Transition> {
    if sent == [] then []
    else Of(sent[..|sent| - 1], id) + if sent[|sent| - 1].id == id then [sent[|sent| - 1].t] else []
  }

  predicate EndsWith(ts: seq<Transition>, end: seq<Transition>) {
    |end| <= |ts| && ts[|ts| - |end|..] == end
  }

  /** The sink got exactly the records of what was emitted, and of each tracked
      container the last emissions are the transitions of its results. */
  ghost predicate Ledger(view: map<string, Tracking>, sent: seq<Emission>, events: seq<EventRecord>, hasSink: bool) {
    && events == (if hasSink then Records(sent) else [])
    && forall id :: Told(view, sent, id)
  }

  predicate Told(view: map<string, Tracking>, sent: seq<Emission>, id: string) {
    id in view ==> EndsWith(Of(sent, id), Transitions(view[id].results))
  }

  function Emitted(id: string, ts: seq<Transition>): seq<Emission> {
    if ts == [] then [] else [Emission(id, ts[0])]
  }

  lemma OfStep(sent: seq<Emission>, id: string, ts: seq<Transition>, other: string)
    requires |ts| <= 1
    ensures Of(sent + Emitted(id, ts), other) == Of(sent, other) + if other == id then ts else []
  {
    if ts == [] {
      assert sent + Emitted(id, ts) == sent && Of(sent, other) + [] == Of(sent, other);
    } else {
      assert (sent + Emitted(id, ts))[..|sent|] == sent && [ts[0]] == ts;
    }
  }

  lemma EndsWithStep(ts: seq<Transition>, end: seq<Transition>, more: seq<Transition>)
    requires EndsWith(ts, end)
    ensures EndsWith(ts + more, end + more)
  {
    var n := |ts| - |end|;
    assert ts == ts[..n] + end;
    assert (ts + more)[n..] == end + more;
  }

  lemma RecordsStep(sent: seq<Emission>, id: string, ts: seq<Transition>)
    requires |ts| <= 1
    ensures Records(sent + Emitted(id, ts)) == Records(sent) + Reported(true, id, ts)
  {
  }

  lemma LedgerStep(view: map<string, Tracking>, sent: seq<Emission>, events: seq<EventRecord>, hasSink: bool, id: string, r: ProbeResult)
    requires Ledger(view, sent, events, hasSink) && id in view
    ensures var ts := LastTransition(view[id].results + [r]);
            Ledger(Recorded(view, id, r), sent + Emitted(id, ts), events + Reported(hasSink, id, ts), hasSink)
  {
    var after := Recorded(view, id, r);
    var ts := LastTransition(view[id].results + [r]);
    RecordsStep(sent, id, ts);
    TransitionsStep(view[id].results, r);
    forall other ensures Told(after, sent + Emitted(id, ts), other) {
      assert Told(view, sent, other);
      OfStep(sent, id, ts, other);
      if other == id {
        EndsWithStep(Of(sent, id), Transitions(view[id].results), ts);
      } else {
        assert Of(sent, other) + [] == Of(sent, other);
      }
    }
  }

  lemma LedgerSet(view: map<string, Tracking>, sent: seq<Emission>, events: seq<EventRecord>, hasSink: bool, id: string, t: Tracking)
    requires Ledger(view, sent, events, hasSink) && t.results == []
    ensures Ledger(view[id := t], sent, events, hasSink)
  {
    var after := view[id := t];
    forall other ensures Told(after, sent, other) {
      assert Told(view, sent, other);
    }
  }

  lemma LedgerDrop(view: map<string, Tracking>, sent: seq<Emission>, events: seq<EventRecord>, hasSink: bool, id: string)
    requires Ledger(view, sent, events, hasSink)
    ensures Ledger(view - {id}, sent, events, hasSink)
  {
    forall other ensures Told(view - {id}, sent, other) {
      assert Told(view, sent, other);
    }
  }

  class Manager {
    var entries: map<string, Entry>
    var events: seq<EventRecord>
    const hasSink: bool
    const digest: TaskDef -> string
    const log: Log
    ghost var view: map<string, Tracking>  // the entries as values
    ghost var sent: seq<Emission>          // every transition emitted so far
    ghost var Repr: set<object>

    /** The entries show the view, and the sink got what was emitted. */
    ghost predicate Valid()
      reads this, Repr
    {
      Ledger(view, sent, events, hasSink) && Showing(view)
    }

    /** The entries, and nothing else, show this view. */
    ghost predicate Showing(v: map<string, Tracking>)
      reads this, Repr
    {
      && this in Repr && log !in Repr && entries.Keys == v.Keys
      && forall id | id in entries ::
           entries[id] in Repr && entries[id].history in Repr && entries[id].Shows(id, v[id])
    }

    constructor (digest: TaskDef -> string, hasSink: bool, log: Log)
      ensures Valid() && fresh(Repr) && view == map[] && events == []
      ensures this.digest == digest && this.hasSink == hasSink && this.log == log
    {
      this.digest, this.hasSink, this.log := digest, hasSink, log;
      entries, events, view, sent := map[], [], map[], [];
      Repr := {this};
    }

    /** Fails exactly on the empty ID; otherwise see `Tracked`. */
    method Track(id: string, spec: TaskDef) returns (ok: bool)
      requires Valid()
      modifies this
      ensures Valid() && fresh(Repr - old(Repr))
      ensures ok == (id != "")
      ensures view == Tracked(old(view), id, digest(spec), spec)
      ensures events == old(events)
    {
      if id == "" { return false; }
      var d := digest(spec);
      if id in entries && entries[id].specHash == d { return true; }
      if id in entries {
        Untrack(id);
      }
      Insert(id, d, spec);
      RemoveThenSet(old(view), id, StartTracking(d, spec));
      return true;
    }

    method Insert(id: string, d: string, spec: TaskDef)
      requires Valid()
      modifies this
      ensures Valid() && fresh(Repr - old(Repr))
      ensures view == old(view)[id := StartTracking(d, spec)]
      ensures events == old(events)
    {
      var e := new Entry(id, d, !IsEmptyHealth(spec.health));
      LedgerSet(view, sent, events, hasSink, id, StartTracking(d, spec));
      entries := entries[id := e];
      view := view[id := StartTracking(d, spec)];
      Repr := Repr + {e, e.history};
    }

    method Untrack(id: string)
      requires Valid()
      modifies this
      ensures Valid() && Repr == old(Repr)
      ensures view == old(view) - {id}
      ensures events == old(events)
    {
      LedgerDrop(view, sent, events, hasSink, id);
      entries := entries - {id};
      view := view - {id};
    }

    /** Every tracked ID once, in any order. */
    method TrackedIDs() returns (ids: seq<string>)
      requires Valid()
      ensures forall id :: id in ids <==> id in view
      ensures forall i, j | 0 <= i < j < |ids| :: ids[i] != ids[j]
    {
      ids := [];
      var rest := entries.Keys;
      while rest != {}
        invariant rest <= entries.Keys
        invariant forall id :: id in ids <==> id in entries.Keys - rest
        invariant forall i, j | 0 <= i < j < |ids| :: ids[i] != ids[j]
        decreases rest
      {
        var id :| id in rest;
        assert id !in ids;
        ids, rest := ids + [id], rest - {id};
      }
    }

    method ReadSnapshot(id: string) returns (s: Option<Snapshot>)
      requires Valid()
      modifies log
      ensures Valid() && log.calls == old(log.calls)
      ensures s == if id in view then Some(SnapshotOf(id, view[id])) else None
      ensures log.events == old(log.events) + if id in view then [Saw(id, HealthOk(view[id]))] else []
    {
      if id !in entries { return None; }
      log.events := log.events + [Saw(id, entries[id].snapshot.healthOk)];
      return Some(entries[id].snapshot);
    }

    /** One probe result for a tracked container: the sink gets the transition
        it causes, if any. */
    method RecordResult(id: string, r: ProbeResult)
      requires Valid() && id in entries && entries[id].probed
      modifies this`view, this`events, this`sent, entries[id], entries[id].history
      ensures Valid()
      ensures view == Recorded(old(view), id, r)
      ensures events == old(events) + Reported(hasSink, id, LastTransition(old(view[id].results) + [r]))
      ensures sent == old(sent) + Emitted(id, LastTransition(old(view[id].results) + [r]))
    {
      LedgerStep(view, sent, events, hasSink, id, r);
      ghost var v := Recorded(view, id, r);
      Take(id, r);
      SetView(v);
    }

    ghost method SetView(v: map<string, Tracking>)
      requires Showing(v)
      modifies this`view
      ensures view == v && Showing(view)
    {
      view := v;
    }

    /** The result is taken in and reported; the view is still the old one. */
    method Take(id: string, r: ProbeResult)
      requires Showing(view) && id in entries && entries[id].probed
      modifies this`events, this`sent, entries[id], entries[id].history
      ensures Showing(Recorded(view, id, r))
      ensures events == old(events) + Reported(hasSink, id, LastTransition(view[id].results + [r]))
      ensures sent == old(sent) + Emitted(id, LastTransition(view[id].results + [r]))
    {
      UpdateEntry(entries[id], id, r, view[id]);
      OthersShow(id);
    }

    /** A change to one entry leaves what the others show. */
    twostate lemma OthersShow(id: string)
      requires old(Showing(view)) && id in entries && entries == old(entries) && view == old(view)
      requires forall k | k in entries && entries[k] != entries[id] :: unchanged(entries[k])
      requires forall k | k in entries && entries[k].history != entries[id].history :: unchanged(entries[k].history)
      ensures forall k | k in entries && k != id :: entries[k].Shows(k, view[k])
    {
      forall k | k in entries && k != id ensures entries[k].Shows(k, view[k]) {
        assert old(entries[k].Shows(k, view[k])) && old(entries[id].Shows(id, view[id]));
        assert entries[k] != entries[id] && entries[k].history != entries[id].history;
      }
    }

    method UpdateEntry(e: Entry, id: string, r: ProbeResult, ghost t: Tracking)
      requires e.Shows(id, t) && e.probed
      modifies this`events, this`sent, e, e.history
      ensures e.Shows(id, t.(results := t.results + [r]))
      ensures events == old(events) + Reported(hasSink, id, LastTransition(t.results + [r]))
      ensures sent == old(sent) + Emitted(id, LastTransition(t.results + [r]))
    {
      assert (t.results + [r])[..|t.results|] == t.results;
      TransitionsStep(t.results, r);
      var prev := e.snapshot;
      e.Record(r, t);
      var next := e.snapshot;
      if prev.healthOk != next.healthOk {
        EmitTransition(id, prev.healthOk, next.healthOk, next.streak);
      }
    }

    /** Reports one transition to the audit sink, if there is one; what the sink
        makes of it is not looked at. */
    method EmitTransition(id: string, prevHealthy: bool, newHealthy: bool, streak: nat)
      modifies this`events, this`sent
      ensures sent == old(sent) + [Emission(id, Transition(prevHealthy, newHealthy, streak))]
      ensures events == old(events) + Reported(hasSink, id, [Transition(prevHealthy, newHealthy, streak)])
    {
      sent := sent + [Emission(id, Transition(prevHealthy, newHealthy, streak))];
      if !hasSink { return; }
      var from := "unhealthy";
      if prevHealthy { from := "healthy"; }
      var to := "unhealthy";
      if newHealthy { to := "healthy"; }
      var short := id;
      if |short| > 12 { short := short[..12]; }
      var payload := "{\"from\":\"" + from + "\",\"to\":\"" + to + "\",\"streak\":" + Format(streak) + "}";
      events := events + [EventRecord("probe.transition", "reconciler", "container:" + short, payload)];
    }

    /** A result for `id` arrives; it counts only if `id` is probed. */
    method Arrive(id: string, r: ProbeResult)
      requires Valid()
      modifies Repr
      ensures Valid() && Repr == old(Repr) && Later(old(view), view)
    {
      if id in entries && entries[id].probed {
        ghost var was := view;
        RecordResult(id, r);
        RecordedLater(was, id, r);
      }
    }

    /** Time passes: any results may arrive for any probed containers. */
    method Elapse()
      requires Valid()
      modifies Repr
      ensures Valid() && Repr == old(Repr) && Later(old(view), view)
    {
      var count: int := *;
      while count > 0
        invariant Valid() && Repr == old(Repr) && Later(old(view), view)
      {
        var id: string, r: ProbeResult := *, *;
        ghost var before := view;
        Arrive(id, r);
        LaterTrans(old(view), before, view);
        count := count - 1;
      }
    }
  }

  /** What the sink holds: a record of each emission, in order, and of a tracked
      container, whatever has happened since it is tracked, the last ones are
      recoveries and falls in turn, ending as things stand. */
  lemma EmittedAlternates(m: Manager, id: string)
    requires m.Valid() && id in m.view
    ensures m.hasSink ==> |m.events| == |m.sent| && forall i | 0 <= i < |m.sent| :: m.events[i] == RecordOf(m.sent[i].id, m.sent[i].t)
    ensures !m.hasSink ==> m.events == []
    ensures var ts, t := Transitions(m.view[id].results), m.view[id];
            && EndsWith(Of(m.sent, id), ts) && Alternates(ts)
            && (t.probed && ts != [] ==> ts[|ts| - 1].to == SnapshotOf(id, t).healthOk)
  {
    TransitionsAlternate(m.view[id].results);
    assert Told(m.view, m.sent, id);
  }
}
