/** Admission of NDP announcements: sequence numbers, signed digests, liveness refreshes and removals. */
module AnnounceRegistry {
  import opened Common

  /** A time as written in a frame, and what it parses to. */
  datatype Stamp = Stamp(raw: string, parsed: Option<int>)

  datatype SeqField = NoSeq | BadSeq | Seq(n: nat)

  /** The signed part of an announcement; `rest` stands for every field that admission does not look at. */
  datatype Signed = Signed(
    nid: Option<string>, timestamp: Option<Stamp>, graphSeq: SeqField, ttl: Option<nat>,
    bridgeShapeOk: bool, rest: string)

  datatype Announce = Announce(signed: Signed, health: Option<string>, lastSeen: Option<Stamp>)

  datatype Entry = Entry(frame: Announce, digest: string, expiresAt: int)

  datatype Registry = Registry(entries: map<string, Entry>, highest: map<string, nat>)

  datatype ErrorCode = SignatureInvalid | ProfileViolation | SeqRollback | AnnounceConflict | AnnounceStale

  datatype Admission = Accepted | Duplicate | Refreshed | Removed | Rejected(code: ErrorCode)

  /** `digest` is the hash of the canonical signed body: any function of it. */
  datatype Profile = Profile(localDev: bool, digest: Signed -> string)

  const EMPTY := Registry(map[], map[])
  const MAX_SKEW := 300_000_000

  function Instant(s: Option<Stamp>): Option<int> { if s.None? then None else s.value.parsed }

  /** `last_seen or timestamp`, plus the TTL. */
  function Deadline(f: Announce): Option<int> {
    var source := Instant(if f.lastSeen.Some? && f.lastSeen.value.raw != "" then f.lastSeen else f.signed.timestamp);
    if source.Some? && f.signed.ttl.Some? then Some(source.value + f.signed.ttl.value * 1_000_000) else None
  }

  function SequenceOf(s: Signed): nat { if s.graphSeq.Seq? then s.graphSeq.n else 0 }

  function Nid(s: Signed): string { s.nid.GetOr("") }

  /** The checks that come before the registry's own state. */
  function FormError(p: Profile, f: Announce, signatureValid: bool, at: int): Option<ErrorCode> {
    if !signatureValid then Some(SignatureInvalid)
    else if Nid(f.signed) == "" || Instant(f.signed.timestamp).None? then Some(ProfileViolation)
    else if f.signed.graphSeq.BadSeq? || (f.signed.graphSeq.NoSeq? && !p.localDev) || f.signed.ttl.None? then
      Some(ProfileViolation)
    else if !f.signed.bridgeShapeOk then Some(ProfileViolation)
    else
      var skew := at - Instant(f.signed.timestamp).value;
      if !p.localDev && (skew > MAX_SKEW || -skew > MAX_SKEW) then Some(SignatureInvalid) else None
  }

  predicate Fresh(f: Announce, at: int) { Deadline(f).Some? && Deadline(f).value > at }

  function Store(p: Profile, r: Registry, f: Announce): Registry
    requires Deadline(f).Some?
  {
    var nid := Nid(f.signed);
    Registry(
      r.entries[nid := Entry(f, p.digest(f.signed), Deadline(f).value)],
      r.highest[nid := SequenceOf(f.signed)])
  }

  /** An announcement whose sequence equals the highest one known for its NID. */
  function ApplySame(p: Profile, r: Registry, f: Announce, at: int): (Registry, Admission) {
    var nid := Nid(f.signed);
    if nid !in r.entries then (r, Duplicate)
    else if r.entries[nid].digest != p.digest(f.signed) then (r, Rejected(AnnounceConflict))
    else if r.entries[nid].frame.health == f.health && r.entries[nid].frame.lastSeen == f.lastSeen then (r, Duplicate)
    else if !Fresh(f, at) then (r, Rejected(AnnounceStale))
    else (r.(entries := r.entries[nid := Entry(f, p.digest(f.signed), Deadline(f).value)]), Refreshed)
  }

  function ApplyNew(p: Profile, r: Registry, f: Announce, at: int): (Registry, Admission) {
    var nid := Nid(f.signed);
    if f.signed.ttl == Some(0) then
      (Registry(r.entries - {nid}, r.highest[nid := SequenceOf(f.signed)]), Removed)
    else if !Fresh(f, at) then (r, Rejected(AnnounceStale))
    else (Store(p, r, f), Accepted)
  }

  /** `apply_announce`. */
  function Apply(p: Profile, r: Registry, f: Announce, signatureValid: bool, at: int): (Registry, Admission) {
    var nid := Nid(f.signed);
    if FormError(p, f, signatureValid, at).Some? then (r, Rejected(FormError(p, f, signatureValid, at).value))
    else if nid in r.highest && SequenceOf(f.signed) < r.highest[nid] then (r, Rejected(SeqRollback))
    else if nid in r.highest && SequenceOf(f.signed) == r.highest[nid] then ApplySame(p, r, f, at)
    else ApplyNew(p, r, f, at)
  }

  class RegistryProfile {
    const profile: Profile
    var entries: map<string, Entry>
    var highest: map<string, nat>

    ghost function Now(): Registry
      reads this
    {
      Registry(entries, highest)
    }

    constructor (p: Profile)
      ensures profile == p && Now() == EMPTY
    {
      profile, entries, highest := p, map[], map[];
    }

    method ApplyAnnounce(f: Announce, signatureValid: bool, at: int) returns (a: Admission)
      modifies this
      ensures (Now(), a) == Apply(profile, old(Now()), f, signatureValid, at)
    {
      var formError := FormError(profile, f, signatureValid, at);
      if formError.Some? { return Rejected(formError.value); }
      var nid, sequence, digest := Nid(f.signed), SequenceOf(f.signed), profile.digest(f.signed);
      if nid in highest {
        if sequence < highest[nid] { return Rejected(SeqRollback); }
        if sequence == highest[nid] {
          if nid !in entries { return Duplicate; }
          var current := entries[nid];
          if current.digest != digest { return Rejected(AnnounceConflict); }
          if current.frame.health == f.health && current.frame.lastSeen == f.lastSeen { return Duplicate; }
          if !Fresh(f, at) { return Rejected(AnnounceStale); }
          entries := entries[nid := Entry(f, digest, Deadline(f).value)];
          return Refreshed;
        }
      }
      if f.signed.ttl == Some(0) {
        highest := highest[nid := sequence];
        entries := entries - {nid};
        return Removed;
      }
      if !Fresh(f, at) { return Rejected(AnnounceStale); }
      highest := highest[nid := sequence];
      entries := entries[nid := Entry(f, digest, Deadline(f).value)];
      a := Accepted;
    }
  }

  // ---------------------------------------------------------------- runs

  datatype Arrival = Arrival(frame: Announce, signatureValid: bool, at: int)

  /** One thing that was ever stored. */
  datatype Record = Record(nid: string, sequence: nat, digest: string)

  datatype Trace = Trace(registry: Registry, stored: seq<Record>)

  function Step(p: Profile, t: Trace, a: Arrival): Trace {
    var (next, decision) := Apply(p, t.registry, a.frame, a.signatureValid, a.at);
    Trace(next,
      if decision == Accepted || decision == Refreshed
      then t.stored + [Record(Nid(a.frame.signed), SequenceOf(a.frame.signed), p.digest(a.frame.signed))]
      else t.stored)
  }

  function Run(p: Profile, t: Trace, arrivals: seq<Arrival>): Trace
    decreases |arrivals|
  {
    if arrivals == [] then t else Run(p, Step(p, t, arrivals[0]), arrivals[1..])
  }

  /** Every live entry sits at its NID's highest sequence, with its own digest. */
  ghost predicate EntriesOk(p: Profile, r: Registry) {
    forall nid :: nid in r.entries ==>
      && nid in r.highest
      && SequenceOf(r.entries[nid].frame.signed) == r.highest[nid]
      && Nid(r.entries[nid].frame.signed) == nid
      && r.entries[nid].digest == p.digest(r.entries[nid].frame.signed)
  }

  /** Nothing was ever stored above the highest sequence, and what was stored at it is what is live now. */
  ghost predicate RecordOk(r: Registry, x: Record) {
    && x.nid in r.highest && x.sequence <= r.highest[x.nid]
    && (x.sequence == r.highest[x.nid] ==> x.nid in r.entries && r.entries[x.nid].digest == x.digest)
  }

  ghost predicate RecordsOk(t: Trace) { forall i :: 0 <= i < |t.stored| ==> RecordOk(t.registry, t.stored[i]) }

  ghost predicate OneDigest(stored: seq<Record>) {
    forall i, j ::
      0 <= i < j < |stored| && stored[i].nid == stored[j].nid && stored[i].sequence == stored[j].sequence ==>
        stored[i].digest == stored[j].digest
  }

  ghost predicate Good(p: Profile, t: Trace) { EntriesOk(p, t.registry) && RecordsOk(t) && OneDigest(t.stored) }

  ghost predicate NeverLower(a: Registry, b: Registry) {
    forall nid :: nid in a.highest ==> nid in b.highest && a.highest[nid] <= b.highest[nid]
  }

  lemma RecordSurvives(p: Profile, t: Trace, a: Arrival, x: Record)
    requires EntriesOk(p, t.registry) && RecordOk(t.registry, x)
    ensures RecordOk(Step(p, t, a).registry, x)
  {}

  lemma NewRecordAgrees(p: Profile, t: Trace, a: Arrival, x: Record)
    requires EntriesOk(p, t.registry) && RecordOk(t.registry, x) && |Step(p, t, a).stored| > |t.stored|
    ensures var y := Step(p, t, a).stored[|t.stored|];
            RecordOk(Step(p, t, a).registry, y) && (x.nid == y.nid && x.sequence == y.sequence ==> x.digest == y.digest)
  {}

  lemma NewRecordIsOk(p: Profile, t: Trace, a: Arrival)
    requires EntriesOk(p, t.registry) && |Step(p, t, a).stored| > |t.stored|
    ensures RecordOk(Step(p, t, a).registry, Step(p, t, a).stored[|t.stored|])
  {}

  lemma StepKeepsEntries(p: Profile, r: Registry, a: Arrival)
    requires EntriesOk(p, r)
    ensures var (next, decision) := Apply(p, r, a.frame, a.signatureValid, a.at);
            && EntriesOk(p, next) && NeverLower(r, next)
            && (decision == Duplicate || decision.Rejected? ==> next == r)
  {}

  lemma StepIsGood(p: Profile, t: Trace, a: Arrival)
    requires Good(p, t)
    ensures Good(p, Step(p, t, a)) && NeverLower(t.registry, Step(p, t, a).registry)
  {
    var next := Step(p, t, a);
    StepKeepsEntries(p, t.registry, a);
    forall i | 0 <= i < |next.stored| ensures RecordOk(next.registry, next.stored[i]) {
      if i < |t.stored| { RecordSurvives(p, t, a, t.stored[i]); } else { NewRecordIsOk(p, t, a); }
    }
    forall i, j | 0 <= i < j < |next.stored| && next.stored[i].nid == next.stored[j].nid &&
      next.stored[i].sequence == next.stored[j].sequence
      ensures next.stored[i].digest == next.stored[j].digest
    {
      if j == |t.stored| { NewRecordAgrees(p, t, a, t.stored[i]); }
    }
  }

  /**
   Over every sequence of announcements: the highest sequence of a NID never decreases, at most one signed digest is
   ever stored per NID and sequence, and every stored entry sits at its NID's highest sequence.
   */
  lemma {:induction false} EveryRunIsGood(p: Profile, t: Trace, arrivals: seq<Arrival>)
    requires Good(p, t)
    ensures Good(p, Run(p, t, arrivals)) && NeverLower(t.registry, Run(p, t, arrivals).registry)
    decreases |arrivals|
  {
    if arrivals != [] {
      StepIsGood(p, t, arrivals[0]);
      EveryRunIsGood(p, Step(p, t, arrivals[0]), arrivals[1..]);
    }
  }

  /** A removal at sequence `s` keeps the NID out until something above `s` arrives. */
  lemma {:induction false} RemovalHolds(p: Profile, t: Trace, arrivals: seq<Arrival>, nid: string, s: nat)
    requires nid !in t.registry.entries && nid in t.registry.highest && t.registry.highest[nid] >= s
    requires forall i :: 0 <= i < |arrivals| && Nid(arrivals[i].frame.signed) == nid ==>
             SequenceOf(arrivals[i].frame.signed) <= s
    ensures nid !in Run(p, t, arrivals).registry.entries
    decreases |arrivals|
  {
    if arrivals != [] {
      var next := Step(p, t, arrivals[0]);
      assert nid !in next.registry.entries && next.registry.highest[nid] >= s;
      forall i | 0 <= i < |arrivals[1..]| && Nid(arrivals[1..][i].frame.signed) == nid
        ensures SequenceOf(arrivals[1..][i].frame.signed) <= s
      {
        assert arrivals[1..][i] == arrivals[i + 1];
      }
      RemovalHolds(p, next, arrivals[1..], nid, s);
    }
  }

  // ---------------------------------------------------------------- when an announcement is accepted

  /** The frame has all that every announcement must have; a sequence may be missing in local development only. */
  predicate Complete(p: Profile, f: Announce) {
    && f.signed.nid.Some? && f.signed.nid.value != ""
    && f.signed.timestamp.Some? && f.signed.timestamp.value.parsed.Some?
    && (f.signed.graphSeq.Seq? || (f.signed.graphSeq.NoSeq? && p.localDev))
    && f.signed.ttl.Some? && f.signed.bridgeShapeOk
  }

  /** Within five minutes of its reception, either way; not asked for in local development. */
  predicate Timely(p: Profile, f: Announce, at: int)
    requires Complete(p, f)
  {
    p.localDev || at - 300_000_000 <= f.signed.timestamp.value.parsed.value <= at + 300_000_000
  }

  /** The instant an announcement counts from: when its node was last seen, or else its own time. */
  function CountsFrom(f: Announce): Option<int> {
    if f.lastSeen.Some? && f.lastSeen.value.raw != "" then f.lastSeen.value.parsed
    else if f.signed.timestamp.Some? then f.signed.timestamp.value.parsed
    else None
  }

  /** The announcement is still good at `t`. */
  predicate LastsTo(f: Announce, t: int) {
    CountsFrom(f).Some? && f.signed.ttl.Some? && t < CountsFrom(f).value + 1_000_000 * f.signed.ttl.value
  }

  predicate Sound(p: Profile, f: Announce, signatureValid: bool, at: int) {
    signatureValid && Complete(p, f) && Timely(p, f, at)
  }

  /** The sequence of the frame is above, or at, the highest one known for its NID. */
  predicate Newer(r: Registry, f: Announce) {
    Nid(f.signed) in r.highest ==>
      r.highest[Nid(f.signed)] < if f.signed.graphSeq.Seq? then f.signed.graphSeq.n else 0
  }

  predicate Level(r: Registry, f: Announce) {
    && Nid(f.signed) in r.highest
    && r.highest[Nid(f.signed)] == if f.signed.graphSeq.Seq? then f.signed.graphSeq.n else 0
  }

  /** Signed as the entry that is held, but telling something else about the life of the node. */
  predicate Refreshes(p: Profile, r: Registry, f: Announce) {
    && Nid(f.signed) in r.entries && r.entries[Nid(f.signed)].digest == p.digest(f.signed)
    && (r.entries[Nid(f.signed)].frame.health != f.health || r.entries[Nid(f.signed)].frame.lastSeen != f.lastSeen)
  }

  lemma FormMeans(p: Profile, f: Announce, signatureValid: bool, at: int)
    ensures FormError(p, f, signatureValid, at).None? <==> Sound(p, f, signatureValid, at)
    ensures FormError(p, f, signatureValid, at) == Some(ProfileViolation) <==> signatureValid && !Complete(p, f)
    ensures FormError(p, f, signatureValid, at).Some? ==>
            FormError(p, f, signatureValid, at).value in {SignatureInvalid, ProfileViolation}
  {}

  /** Each decision, by what was announced and what was known; nothing else decides. */
  lemma AdmittedExactlyWhen(p: Profile, r: Registry, f: Announce, signatureValid: bool, at: int)
    ensures var a, sound := Apply(p, r, f, signatureValid, at).1, Sound(p, f, signatureValid, at);
            && (a == Accepted <==> sound && Newer(r, f) && f.signed.ttl != Some(0) && LastsTo(f, at))
            && (a == Removed <==> sound && Newer(r, f) && f.signed.ttl == Some(0))
            && (a == Refreshed <==> sound && Level(r, f) && Refreshes(p, r, f) && LastsTo(f, at))
            && (a == Rejected(SignatureInvalid) <==> !signatureValid || (Complete(p, f) && !Timely(p, f, at)))
            && (a == Rejected(ProfileViolation) <==> signatureValid && !Complete(p, f))
            && (a == Rejected(SeqRollback) <==> sound && !Newer(r, f) && !Level(r, f))
            && (a == Rejected(AnnounceConflict) <==>
                  && sound && Level(r, f) && Nid(f.signed) in r.entries
                  && r.entries[Nid(f.signed)].digest != p.digest(f.signed))
            && (a == Rejected(AnnounceStale) <==>
                  && sound && !LastsTo(f, at)
                  && ((Newer(r, f) && f.signed.ttl != Some(0)) || (Level(r, f) && Refreshes(p, r, f))))
  {
    FormMeans(p, f, signatureValid, at);
  }

  /** What is admitted is live from then on, for exactly as long as the announcement lasts. */
  lemma AdmittedIsLive(p: Profile, r: Registry, f: Announce, signatureValid: bool, at: int, now: int)
    requires Apply(p, r, f, signatureValid, at).1 in {Accepted, Refreshed}
    ensures var next := Apply(p, r, f, signatureValid, at).0;
            && Nid(f.signed) in next.entries && next.entries[Nid(f.signed)].frame == f
            && (next.entries[Nid(f.signed)].expiresAt > now <==> LastsTo(f, now))
            && next.entries[Nid(f.signed)].expiresAt > at
  {}

  // ---------------------------------------------------------------- the owner of a cluster

  /** What a frame says about clusters; an absent epoch reads as 1. */
  datatype Claim = Claim(cluster: Option<string>, epoch: int, anchor: bool)

  datatype Selection = NoLeader | Leader(nid: string, epoch: int) | SplitCluster

  /** A live announcement of an Anchor of that cluster. */
  predicate IsCandidate(r: Registry, view: Announce -> Claim, cluster: string, now: int, nid: string) {
    && nid in r.entries && r.entries[nid].expiresAt > now
    && view(r.entries[nid].frame).cluster == Some(cluster) && view(r.entries[nid].frame).anchor
  }

  function EpochOf(r: Registry, view: Announce -> Claim, nid: string): int {
    if nid in r.entries then view(r.entries[nid].frame).epoch else 0
  }

  /** `nid` is a candidate and every other one is at a lower epoch. */
  ghost predicate Leads(r: Registry, view: Announce -> Claim, cluster: string, now: int, nid: string) {
    && IsCandidate(r, view, cluster, now, nid)
    && forall o :: IsCandidate(r, view, cluster, now, o) && o != nid ==> EpochOf(r, view, o) < EpochOf(r, view, nid)
  }

  method HighestMember(r: Registry, view: Announce -> Claim, members: set<string>) returns (best: string)
    requires members != {}
    ensures best in members && forall o :: o in members ==> EpochOf(r, view, o) <= EpochOf(r, view, best)
  {
    best :| best in members;
    var todo := members - {best};
    while todo != {}
      invariant todo <= members && best in members
      invariant forall o :: o in members && o !in todo ==> EpochOf(r, view, o) <= EpochOf(r, view, best)
      decreases |todo|
    {
      var o :| o in todo;
      if EpochOf(r, view, o) > EpochOf(r, view, best) { best := o; }
      todo := todo - {o};
    }
  }

  /**
   `resolve_cluster` of the registry: the leader is the one live Anchor at the highest epoch of the cluster; without any
   there is none, and with several there the cluster is split.
   */
  method ResolveCluster(r: Registry, view: Announce -> Claim, cluster: string, now: int) returns (s: Selection)
    ensures s == NoLeader <==> forall o :: !IsCandidate(r, view, cluster, now, o)
    ensures forall nid :: Leads(r, view, cluster, now, nid) <==> s == Leader(nid, EpochOf(r, view, nid))
    ensures s.Leader? ==> Leads(r, view, cluster, now, s.nid) && s.epoch == EpochOf(r, view, s.nid)
  {
    var members := set nid | nid in r.entries && IsCandidate(r, view, cluster, now, nid);
    assert forall o :: o in members <==> IsCandidate(r, view, cluster, now, o);
    if members == {} { return NoLeader; }
    var best := HighestMember(r, view, members);
    var leaders := set nid | nid in members && EpochOf(r, view, nid) == EpochOf(r, view, best);
    assert best in leaders;
    assert leaders - {best} == {} ==> leaders == {best};
    if |leaders| == 1 {
      OnlyMember(leaders, best);
      s := Leader(best, EpochOf(r, view, best));
      forall o | o in members && o != best ensures EpochOf(r, view, o) < EpochOf(r, view, best) {
        assert o !in leaders;
      }
      assert Leads(r, view, cluster, now, best);
    } else {
      s := SplitCluster;
      var other :| other in leaders - {best};
      assert IsCandidate(r, view, cluster, now, other) && IsCandidate(r, view, cluster, now, best);
    }
    forall nid | Leads(r, view, cluster, now, nid) ensures s == Leader(nid, EpochOf(r, view, nid)) {
      assert IsCandidate(r, view, cluster, now, best) && best == nid;
    }
  }

  lemma OnlyMember<T>(s: set<T>, x: T)
    requires |s| == 1 && x in s
    ensures s == {x}
  {
    assert |s - {x}| == 0;
    assert s == {x} + (s - {x});
  }
}
