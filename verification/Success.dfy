/** When the actions of a tick succeed, on a runtime that fails only where it
    must. */
module Success {
  import opened Domain
  import opened Labels
  import opened Diff
  import opened Journal
  import opened Runtime
  import opened Strategy
  import opened Tick

  ghost predicate NamedBy(actions: seq<Action>, i: nat, id: string)
    requires i < |actions|
  {
    (Plain(actions[i]) && actions[i].Names(id)) || exists j | 0 <= j < i :: actions[j].Names(id)
  }

  /** What action `i` needs of the world before the list: the container it
      takes away exists, and every container with the name it needs is taken
      away by an action before it, or by itself if it does that first. */
  ghost predicate ClearAt(actions: seq<Action>, i: nat, before: World)
    requires i < |actions|
  {
    && (!actions[i].Create? ==> actions[i].id in before)
    && (actions[i].Makes() ==> forall id | id in before && before[id].name == NameNeeded(actions[i]) :: NamedBy(actions, i, id))
  }

  ghost predicate Clear(actions: seq<Action>, before: World) {
    forall i | 0 <= i < |actions| :: ClearAt(actions, i, before)
  }

  ghost predicate OkUpTo(t: Trace, n: nat)
    requires n <= |t.oks|
  {
    forall i | 0 <= i < n :: t.oks[i]
  }

  /** The slots to fill are replicas in one project, so their names differ. */
  ghost predicate OneProject(actions: seq<Action>) {
    forall a, b | a in actions && b in actions && a.Makes() && b.Makes() :: a.slot.project == b.slot.project && a.slot.replica >= 0
  }

  /** The containers after some successful actions, by name. */
  ghost predicate NamesAfter(actions: seq<Action>, before: World, w: World, used: set<string>) {
    && (forall id | id in before :: id in w <==> Spared(actions, id))
    && (forall id | id in before && id in w :: w[id].name == before[id].name)
    && (forall id | id in w && id !in before :: id !in used && exists a | a in actions :: a.Makes() && NamedFor(a.slot, w[id].name))
  }

  lemma NamesAfterStep(actions: seq<Action>, a: Action, before: World, w: World, w': World, used: set<string>)
    requires NamesAfter(actions, before, w, used) && NamesMoved(a, w, w', used)
    requires before.Keys <= used && (!a.Create? ==> a.id in used)
    ensures NamesAfter(actions + [a], before, w', used)
  {
    assert a in actions + [a] && forall b | b in actions :: b in actions + [a];
    forall id ensures Spared(actions + [a], id) <==> Spared(actions, id) && !a.Names(id) { SparedStep(actions, a, id); }
  }

  /** What stands in the way of action `i`, read off the world before. */
  lemma WhatObstructs(actions: seq<Action>, i: nat, before: World, w: World, used: set<string>)
    requires i < |actions| && MakersDiffer(actions) && NamesDiffer(actions) && OneProject(actions)
    requires NamesAfter(actions[..i], before, w, used) && before.Keys <= used && (!actions[i].Create? ==> actions[i].id in used)
    ensures Unobstructed(actions[i], w) <==> ClearAt(actions, i, before)
  {
    var a := actions[i];
    forall id ensures NamedBy(actions, i, id) <==> (Plain(a) && a.Names(id)) || !Spared(actions[..i], id) {
      NamedUpTo(actions, i, id);
    }
    if !a.Create? { OthersSpare(actions, i); }
    forall b | b in actions[..i] && b.Makes() && a.Makes() ensures !NamedFor(b.slot, NameNeeded(a)) {
      var j :| 0 <= j < i && actions[j] == b;
      assert a in actions && b in actions;
      NamesApart(a.slot, b.slot);
    }
  }

  /** No name of one slot is a name of another one in the project. */
  lemma NamesApart(s: Slot, t: Slot)
    requires s.project == t.project && s.replica >= 0 && t.replica >= 0 && s != t
    ensures !NamedFor(t, CanonicalName(s)) && !NamedFor(t, MeanwhileName(s))
  {
    NameInjective(s.project, s.service, s.replica, t.service, t.replica);
    TemporaryNeverCanonical(s.project, s.service, s.replica, t.project, t.service, t.replica);
    TemporaryNeverCanonical(t.project, t.service, t.replica, s.project, s.service, s.replica);
    if MeanwhileName(s) == MeanwhileName(t) { MeanwhileInjective(s, t); }
  }

  lemma MeanwhileInjective(s: Slot, t: Slot)
    requires MeanwhileName(s) == MeanwhileName(t)
    ensures CanonicalName(s) == CanonicalName(t)
  {
    var n := |MeanwhileName(s)| - 4;
    assert CanonicalName(s) == MeanwhileName(s)[..n] && CanonicalName(t) == MeanwhileName(t)[..n];
  }

  lemma NamedUpTo(actions: seq<Action>, i: nat, id: string)
    requires i < |actions|
    ensures NamedBy(actions, i, id) <==> (Plain(actions[i]) && actions[i].Names(id)) || !Spared(actions[..i], id)
  {
    if !Spared(actions[..i], id) {
      var b :| b in actions[..i] && b.Names(id);
      var j :| 0 <= j < i && actions[j] == b;
    }
    if j :| 0 <= j < i && actions[j].Names(id) {
      assert actions[j] in actions[..i];
    }
  }

  lemma OthersSpare(actions: seq<Action>, i: nat)
    requires i < |actions| && NamesDiffer(actions) && !actions[i].Create?
    ensures Spared(actions[..i], actions[i].id)
  {
    forall b | b in actions[..i] ensures !b.Names(actions[i].id) {
      var j :| 0 <= j < i && actions[j] == b;
    }
  }

  /** In every start-first replace up to `n` a new container was seen healthy. */
  ghost predicate HealthyUpTo(actions: seq<Action>, t: Trace, n: nat)
    requires n <= |t.healthy| == |actions|
  {
    forall i | 0 <= i < n :: Plain(actions[i]) || t.healthy[i]
  }

  /** Exactly when every action succeeds on a reliable runtime: when the list
      is clear and every start-first replace saw its new container healthy. In
      particular a create that comes before the removal of the container whose
      name it needs fails, and the sort does not say which comes first. */
  lemma {:induction false} SucceedsExactly(actions: seq<Action>, t: Trace, n: nat, used: set<string>)
    requires Traced(actions, t, used, true) && t.worlds[0].Keys <= used && n <= |actions|
    requires MakersDiffer(actions) && NamesDiffer(actions) && OneProject(actions)
    requires forall a | a in actions :: Executable(a, used)
    ensures OkUpTo(t, n) <==> Clear(actions[..n], t.worlds[0]) && HealthyUpTo(actions, t, n)
    ensures OkUpTo(t, n) ==> NamesAfter(actions[..n], t.worlds[0], t.worlds[n], used)
  {
    if n > 0 {
      var i := n - 1;
      SucceedsExactly(actions, t, i, used);
      assert actions[i] in actions;
      assert Performed(actions[i], t.worlds[i], t.worlds[n], used, t.oks[i], true, t.healthy[i]);
      SucceedsNext(actions, i, OkUpTo(t, i), HealthyUpTo(actions, t, i), t.oks[i], t.healthy[i], t.worlds[0], t.worlds[i], t.worlds[n], used);
      assert OkUpTo(t, n) <==> OkUpTo(t, i) && t.oks[i];
      assert HealthyUpTo(actions, t, n) <==> HealthyUpTo(actions, t, i) && (Plain(actions[i]) || t.healthy[i]);
    }
  }

  lemma SucceedsNext(actions: seq<Action>, i: nat, sofar: bool, healthySofar: bool, ok: bool, healthy: bool,
                     before: World, w: World, w': World, used: set<string>)
    requires i < |actions| && before.Keys <= used && MakersDiffer(actions) && NamesDiffer(actions) && OneProject(actions)
    requires Executable(actions[i], used) && (ok <==> Unobstructed(actions[i], w) && (Plain(actions[i]) || healthy))
    requires ok ==> NamesMoved(actions[i], w, w', used)
    requires sofar <==> Clear(actions[..i], before) && healthySofar
    requires sofar ==> NamesAfter(actions[..i], before, w, used)
    ensures sofar && ok <==> Clear(actions[..i + 1], before) && healthySofar && (Plain(actions[i]) || healthy)
    ensures sofar && ok ==> NamesAfter(actions[..i + 1], before, w', used)
  {
    ClearStep(actions, i, before);
    if sofar {
      WhatObstructs(actions, i, before, w, used);
      if ok {
        NamesAfterStep(actions[..i], actions[i], before, w, w', used);
        assert actions[..i + 1] == actions[..i] + [actions[i]];
      }
    }
  }

  lemma ClearStep(actions: seq<Action>, i: nat, before: World)
    requires i < |actions|
    ensures Clear(actions[..i + 1], before) <==> Clear(actions[..i], before) && ClearAt(actions, i, before)
  {
    var short, long := actions[..i], actions[..i + 1];
    forall k: nat | k <= i ensures ClearAt(long, k, before) == ClearAt(actions, k, before) {
      SameNeeds(long, actions, k, before);
    }
    forall k: nat | k < i ensures ClearAt(short, k, before) == ClearAt(actions, k, before) {
      SameNeeds(short, actions, k, before);
    }
  }

  lemma SameNeeds(short: seq<Action>, long: seq<Action>, k: nat, before: World)
    requires k < |short| && short <= long
    ensures ClearAt(short, k, before) == ClearAt(long, k, before)
  {
    assert forall j | 0 <= j <= k :: short[j] == long[j];
  }
}
