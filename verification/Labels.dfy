/** Container names and labels (internal/runtime/docker/labels.go): the slot a
    container fills is printed at creation, parsed and printed again when
    the labels are stamped, and parsed once more by the reconciler. */
module Labels {
  import opened Domain
  import opened Decimals

  const MANAGED := "proxa.managed"
  const PROJECT := "proxa.project"
  const SERVICE := "proxa.service"
  const REPLICA := "proxa.replica"
  const SPEC_HASH := "proxa.spec_hash"
  const NODE_ID := "proxa.node"
  const CREATED_AT := "proxa.created_at"

  /** One replica position of one service. */
  datatype Slot = Slot(project: string, service: string, replica: int)

  /** The labels the reconciler asks for. */
  function RequestedLabels(slot: Slot, specHash: string): map<string, string> {
    map[PROJECT := slot.project, SERVICE := slot.service, REPLICA := Format(slot.replica), SPEC_HASH := specHash]
  }

  /** The labels `BuildContainerLabels` stamps. */
  function StampedLabels(requested: map<string, string>, replica: int, specHash: string, nodeId: string, now: string): map<string, string> {
    requested[MANAGED := "true"][PROJECT := Get(requested, PROJECT)][SERVICE := Get(requested, SERVICE)]
      [REPLICA := Format(replica)][SPEC_HASH := specHash][NODE_ID := nodeId][CREATED_AT := now]
  }

  method BuildContainerLabels(requested: map<string, string>, replica: int, specHash: string, nodeId: string, now: string)
    returns (out: map<string, string>)
    ensures out == StampedLabels(requested, replica, specHash, nodeId, now)
  {
    out := map[];
    var rest := requested.Keys;
    while rest != {}
      invariant rest <= requested.Keys && out.Keys == requested.Keys - rest
      invariant forall k | k in out :: out[k] == requested[k]
      decreases rest
    {
      var k :| k in rest;
      out, rest := out[k := requested[k]], rest - {k};
    }
    assert out == requested;
    out := out[MANAGED := "true"];
    out := out[PROJECT := Get(requested, PROJECT)];
    out := out[SERVICE := Get(requested, SERVICE)];
    out := out[REPLICA := Format(replica)];
    out := out[SPEC_HASH := specHash];
    out := out[NODE_ID := nodeId];
    out := out[CREATED_AT := now];
  }

  /** What `CreateContainer` stamps: it reads replica and hash back out of the
      requested labels and drops the error of a replica it cannot read. */
  function CreatedLabels(requested: map<string, string>, nodeId: string, now: string): map<string, string> {
    StampedLabels(requested, AtoiAnyway(Get(requested, REPLICA)), Get(requested, SPEC_HASH), nodeId, now)
  }

  /** The slot a label map names, if its replica is an integer. */
  function SlotOf(labels: map<string, string>): Option<Slot> {
    match Atoi(Get(labels, REPLICA))
    case Some(r) => Some(Slot(Get(labels, PROJECT), Get(labels, SERVICE), r))
    case None => None
  }

  lemma LabelKeysDistinct()
    ensures MANAGED !in {PROJECT, SERVICE, REPLICA, SPEC_HASH, NODE_ID, CREATED_AT}
    ensures PROJECT !in {SERVICE, REPLICA, SPEC_HASH, NODE_ID, CREATED_AT}
    ensures SERVICE !in {REPLICA, SPEC_HASH, NODE_ID, CREATED_AT}
    ensures REPLICA !in {SPEC_HASH, NODE_ID, CREATED_AT}
    ensures SPEC_HASH !in {NODE_ID, CREATED_AT}
  {
    assert |MANAGED| == 13 && |PROJECT| == 13 && |SERVICE| == 13 && |REPLICA| == 13;
    assert MANAGED[6] == 'm' && PROJECT[6] == 'p' && SERVICE[6] == 's' && REPLICA[6] == 'r';
    assert |SPEC_HASH| == 15 && |NODE_ID| == 10 && |CREATED_AT| == 16;
  }

  /** Slot identity survives printing, stamping and parsing, and the hash
      label arrives unchanged. */
  lemma SlotRoundTrip(slot: Slot, specHash: string, nodeId: string, now: string)
    requires MIN_INT <= slot.replica <= MAX_INT
    ensures var labels := CreatedLabels(RequestedLabels(slot, specHash), nodeId, now);
            && SlotOf(labels) == Some(slot)
            && Get(labels, SPEC_HASH) == specHash
            && Get(labels, PROJECT) == slot.project && Get(labels, SERVICE) == slot.service
            && Get(labels, MANAGED) == "true"
  {
    LabelKeysDistinct();
    AtoiFormat(slot.replica);
  }

  // ---------- names ----------

  /** `proxa-{project}-{service}-{replica}`. */
  function ContainerNameFor(project: string, service: string, replica: int): string {
    "proxa-" + project + "-" + service + "-" + Format(replica)
  }

  /** The name a start-first rollout gives the new container meanwhile. */
  function TemporaryName(project: string, service: string, replica: int): string {
    ContainerNameFor(project, service, replica) + "-new"
  }

  lemma SplitAtLastDash(p: string, q: string, a: string, b: string)
    requires p + "-" + a == q + "-" + b && AllDigits(a) && AllDigits(b)
    ensures p == q && a == b
  {
    var s := p + "-" + a;
    assert s[|p|] == '-' && s[|q|] == '-';
    assert forall i | |p| < i < |s| :: s[i] == a[i - |p| - 1];
    assert forall i | |q| < i < |s| :: s[i] == b[i - |q| - 1];
    assert |p| == |q|;
    assert p == s[..|p|] && q == s[..|p|];
    assert a == s[|p| + 1..] && b == s[|p| + 1..];
  }

  /** Exactly which slots share a name: the same replica, and projects and
      services that join to the same text. */
  lemma NameCollision(p: string, s: string, r: nat, p': string, s': string, r': nat)
    ensures ContainerNameFor(p, s, r) == ContainerNameFor(p', s', r') <==> p + "-" + s == p' + "-" + s' && r == r'
  {
    var h, h' := "proxa-" + p + "-" + s, "proxa-" + p' + "-" + s';
    assert h == "proxa-" + (p + "-" + s) && h' == "proxa-" + (p' + "-" + s');
    if ContainerNameFor(p, s, r) == ContainerNameFor(p', s', r') {
      SplitAtLastDash(h, h', Digits(r), Digits(r'));
      DigitsInjective(r, r');
      assert h[6..] == p + "-" + s && h'[6..] == p' + "-" + s';
    }
  }

  /** Within one project names are injective on (service, replica). */
  lemma NameInjective(p: string, s: string, r: nat, s': string, r': nat)
    ensures ContainerNameFor(p, s, r) == ContainerNameFor(p, s', r') <==> s == s' && r == r'
  {
    NameCollision(p, s, r, p, s', r');
    if p + "-" + s == p + "-" + s' {
      assert s == (p + "-" + s)[|p| + 1..] && s' == (p + "-" + s')[|p| + 1..];
    }
  }

  /** Across projects they are not. */
  lemma NamesCollideAcrossProjects(r: nat)
    ensures ContainerNameFor("a", "b-c", r) == ContainerNameFor("a-b", "c", r)
  {
    assert "a" + "-" + "b-c" == "a-b" + "-" + "c";
    NameCollision("a", "b-c", r, "a-b", "c", r);
  }

  /** A temporary name is never a canonical one. */
  lemma TemporaryNeverCanonical(p: string, s: string, r: nat, p': string, s': string, r': nat)
    ensures TemporaryName(p, s, r) != ContainerNameFor(p', s', r')
  {
    var t, c := TemporaryName(p, s, r), ContainerNameFor(p', s', r');
    assert t[|t| - 1] == 'w';
    assert c[|c| - 1] == Digits(r')[|Digits(r')| - 1];
    assert IsDigit(c[|c| - 1]);
  }
}
