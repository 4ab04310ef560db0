/** The container runtime as the reconciler meets it: every call may fail, and
    a call that reports failure may still have taken effect. */
module Runtime {
  import opened Domain
  import opened Journal
  import opened Labels

  /** What `CreateContainer` makes of a name and the requested labels. */
  function NewContainer(id: string, name: string, requested: map<string, string>, nodeId: string, now: string): ContainerInfo {
    ContainerInfo(id, name, "created", CreatedLabels(requested, nodeId, now))
  }

  /** One new container under a never-used ID, everything else as before. */
  ghost predicate Created(before: World, used: set<string>, after: World, id: string, name: string, requested: map<string, string>, nodeId: string) {
    && id != "" && id !in used
    && exists now :: after == before[id := NewContainer(id, name, requested, nodeId, now)]
  }

  function WithState(w: World, id: string, state: string): World {
    if id in w then w[id := w[id].(state := state)] else w
  }

  function WithName(w: World, id: string, name: string): World {
    if id in w then w[id := w[id].(name := name)] else w
  }

  predicate NameTaken(w: World, name: string) {
    exists id | id in w :: w[id].name == name
  }

  /** There is always an ID that was never used. */
  lemma {:induction false} UnusedId(used: set<string>) returns (id: string)
    ensures id != "" && forall x | x in used :: |x| < |id|
  {
    if used == {} {
      id := "x";
    } else {
      var x :| x in used;
      var shorter := UnusedId(used - {x});
      id := shorter + x;
    }
  }

  /** `listing` holds exactly the managed containers of the project, each once. */
  ghost predicate Enumerates(listing: seq<ContainerInfo>, w: World, project: string) {
    && (forall i, j | 0 <= i < j < |listing| :: listing[i].id != listing[j].id)
    && (forall c :: c in listing <==> c.id in w && w[c.id] == c && InProject(c, project))
  }

  predicate InProject(c: ContainerInfo, project: string) {
    Get(c.labels, MANAGED) == "true" && Get(c.labels, PROJECT) == project
  }

  class Docker {
    var containers: World
    var used: set<string>  // every ID ever handed out; the daemon never reuses one
    const nodeId: string
    const reliable: bool   // a call fails only where the daemon must refuse it
    const log: Log

    ghost predicate Valid()
      reads this
    {
      containers.Keys <= used && "" !in used && forall id | id in containers :: containers[id].id == id
    }

    /** A daemon that already runs some containers. */
    constructor (nodeId: string, reliable: bool, log: Log, containers: World)
      requires "" !in containers && forall id | id in containers :: containers[id].id == id
      ensures Valid() && this.containers == containers && this.nodeId == nodeId && this.reliable == reliable && this.log == log
    {
      this.reliable, this.nodeId, this.log, this.containers, used := reliable, nodeId, log, containers, containers.Keys;
    }

    ghost method Note(call: Call, ok: bool)
      modifies log
      ensures log.events == old(log.events) + [Called(containers)]
      ensures log.calls == old(log.calls) + [Step(call, ok)]
    {
      log.events := log.events + [Called(containers)];
      log.calls := log.calls + [Step(call, ok)];
    }

    /** A call that only reads leaves no step. */
    ghost method NoteRead()
      modifies log`events
      ensures log.events == old(log.events) + [Called(containers)]
    {
      log.events := log.events + [Called(containers)];
    }

    method PullImage(image: string) returns (ok: bool)
      requires Valid()
      modifies log
      ensures log.events == old(log.events) + [Called(containers)]
      ensures log.calls == old(log.calls) + [Step(Pull(image), ok)]
      ensures reliable ==> ok
    {
      ok := *;
      ok := ok || reliable;
      Note(Pull(image), ok);
    }

    method CreateContainer(name: string, requested: map<string, string>) returns (result: Option<string>)
      requires Valid()
      modifies this, log
      ensures Valid() && old(used) <= used
      ensures log.events == old(log.events) + [Called(containers)]
      ensures log.calls == old(log.calls) + [Step(Create(name, requested), result.Some?)]
      ensures result.Some? ==>
                !NameTaken(old(containers), name)
                && Created(old(containers), old(used), containers, result.value, name, requested, nodeId)
      ensures result.None? && containers != old(containers) ==>
                exists id :: Created(old(containers), old(used), containers, id, name, requested, nodeId)
      ensures reliable ==> (result.Some? <==> !NameTaken(old(containers), name))
      ensures reliable && result.None? ==> containers == old(containers)
      ensures NameTaken(old(containers), name) ==> result.None? && containers == old(containers)
    {
      var now: string, effect: bool, reported: bool := *, *, *;
      effect, reported := effect || reliable, reported || reliable;
      result := None;
      if effect && !NameTaken(containers, name) {
        ghost var unused := UnusedId(used);
        var id :| id != "" && id !in used;
        containers := containers[id := NewContainer(id, name, requested, nodeId, now)];
        used := used + {id};
        assert Created(old(containers), old(used), containers, id, name, requested, nodeId);
        if reported { result := Some(id); }
      }
      Note(Create(name, requested), result.Some?);
    }

    /** Replaces the world by `next`, or not: a failed call may do either. */
    method Attempt(next: World) returns (ok: bool)
      requires Valid() && next.Keys <= containers.Keys && forall id | id in next :: next[id].id == id
      modifies this`containers
      ensures Valid()
      ensures containers == next || (!ok && containers == old(containers))
      ensures reliable ==> ok
    {
      var effect: bool := *;
      ok := *;
      ok := ok || reliable;
      if ok || effect { containers := next; }
    }

    method StartContainer(id: string) returns (ok: bool)
      requires Valid()
      modifies this`containers, log
      ensures Valid()
      ensures log.events == old(log.events) + [Called(containers)]
      ensures log.calls == old(log.calls) + [Step(Start(id), ok)]
      ensures ok ==> id in old(containers)
      ensures reliable ==> (ok <==> id in old(containers))
      ensures containers == WithState(old(containers), id, "running") || (!ok && containers == old(containers))
    {
      ok := Attempt(WithState(containers, id, "running"));
      ok := ok && id in containers;
      Note(Start(id), ok);
    }

    method StopContainer(id: string) returns (ok: bool)
      requires Valid()
      modifies this`containers, log
      ensures Valid()
      ensures log.events == old(log.events) + [Called(containers)]
      ensures log.calls == old(log.calls) + [Step(Stop(id), ok)]
      ensures ok ==> id in old(containers)
      ensures reliable ==> (ok <==> id in old(containers))
      ensures containers == WithState(old(containers), id, "exited") || (!ok && containers == old(containers))
    {
      ok := Attempt(WithState(containers, id, "exited"));
      ok := ok && id in containers;
      Note(Stop(id), ok);
    }

    method RemoveContainer(id: string) returns (ok: bool)
      requires Valid()
      modifies this`containers, log
      ensures Valid()
      ensures log.events == old(log.events) + [Called(containers)]
      ensures log.calls == old(log.calls) + [Step(Remove(id), ok)]
      ensures reliable ==> (ok <==> id in old(containers))
      ensures containers == old(containers) - {id} || (!ok && containers == old(containers))
    {
      var known := id in containers;
      ok := Attempt(containers - {id});
      ok := ok && (known || !reliable);
      Note(Remove(id), ok);
    }

    method RenameContainer(id: string, name: string) returns (ok: bool)
      requires Valid()
      modifies this`containers, log
      ensures Valid()
      ensures log.events == old(log.events) + [Called(containers)]
      ensures log.calls == old(log.calls) + [Step(Rename(id, name), ok)]
      ensures ok ==> id in old(containers) && name != "" && !NameTaken(old(containers), name)
      ensures containers == WithName(old(containers), id, name) || (!ok && containers == old(containers))
    {
      if id == "" || name == "" || NameTaken(containers, name) {
        Note(Rename(id, name), false);
        return false;
      }
      ok := Attempt(WithName(containers, id, name));
      ok := ok && id in containers;
      Note(Rename(id, name), ok);
    }

    method InspectContainer(id: string) returns (info: Option<ContainerInfo>)
      requires Valid()
      modifies log`events
      ensures log.events == old(log.events) + [Called(containers)]
      ensures info.Some? ==> id in containers && info.value == containers[id]
    {
      var answered: bool := *;
      info := if answered && id in containers then Some(containers[id]) else None;
      NoteRead();
    }

    /** Refuses an empty project; otherwise the listing is complete and in
        no particular order. */
    method ListContainers(project: string) returns (listing: Option<seq<ContainerInfo>>)
      requires Valid()
      modifies log`events
      ensures log.events == old(log.events) + [Called(containers)]
      ensures project == "" ==> listing == None
      ensures listing.Some? ==> Enumerates(listing.value, containers, project)
    {
      var answered: bool := *;
      var out: seq<ContainerInfo>, rest := [], containers.Keys;
      while rest != {}
        invariant rest <= containers.Keys
        invariant forall i, j | 0 <= i < j < |out| :: out[i].id != out[j].id
        invariant forall c :: c in out <==> c.id in containers && c.id !in rest && containers[c.id] == c && InProject(c, project)
        decreases rest
      {
        var id :| id in rest;
        if InProject(containers[id], project) { out := out + [containers[id]]; }
        rest := rest - {id};
      }
      assert forall c :: c in out <==> c.id in containers && containers[c.id] == c && InProject(c, project);
      listing := if answered && project != "" then Some(out) else None;
      NoteRead();
    }
  }
}
