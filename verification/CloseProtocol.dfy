// Who closes a volume's stream: nextVolume and closeCurrentVolume on the traversal goroutine, any
// number of Close calls beside them, and the producer of the volumes channel, as interleaved atomic
// steps (reader.go:1236-1298, 1379-1457, 1493-1617; volume.go:236-243). A step is what one lock
// acquisition, one channel operation or one stream Close does.

module CloseProtocol {
  import opened Basics

  // Where the traversal goroutine stands. A stream is named by its number.
  datatype Traversal =
    | Idle
    | Previous(v: Option<nat>)     // nextVolume: the volume taken out, to be closed
    | Spent(v: Option<nat>)        // closeCurrentVolume: likewise
    | Receiving
    | Received(id: nat)            // off the channel, not yet registered
    | Opening(id: nat)             // registered, in openVolume
    | Opened(id: nat, ok: bool)    // openVolume has returned
    | Raw(id: nat)                 // a stream that will not become a volume, to be closed
    | Fresh(id: nat)               // a volume, not yet published
    | Doomed(id: nat)              // a volume that will not be published, to be closed

  // Where one call of Close stands.
  datatype Closer =
    | Called
    | Snapped(v: Option<nat>, staged: Option<nat>)
    | Held(staged: Option<nat>)
    | Draining
    | Drained(id: nat)             // off the channel, to be closed
    | Returned

  // Whose a stream is to close: a record of the run, read by nothing in it.
  datatype Owner = Trav | Staging | Call(k: nat) | Volume | Nobody

  datatype State = State(
    queue: seq<Option<nat>>,       // r.volumes; None is a nil element
    ended: bool,                   // the producer has closed it
    sent: nat,
    done: bool,
    first: nat,                    // the Close call that closed done
    vol: Option<nat>,
    staging: Option<nat>,
    trav: Traversal,
    closers: seq<Closer>,
    once: set<nat>,                // volumes whose closeOnce has run
    closes: map<nat, nat>,         // how often each stream has been closed
    owner: map<nat, Owner>
  )

  datatype Action =
    | Send(isNil: bool)
    | EndQueue
    | CallClose
    | Lock(k: nat)
    | CloseVol(k: nat)
    | CloseStaged(k: nat)
    | Drain(k: nat)
    | CloseDrained(k: nat)
    | Return(k: nat)
    | TakeForNext
    | TakeSpent
    | CloseTaken
    | Receive
    | ReceiveEnd
    | ReceiveDone
    | Stage
    | Open(ok: bool)
    | Unstage
    | CloseRaw
    | Publish(sameFormat: bool)
    | CloseDoomed

  function Times(s: State, id: nat): nat {
    if id in s.closes then s.closes[id] else 0
  }

  // The stream's own Close.
  function Shut(s: State, id: nat): State {
    s.(closes := s.closes[id := Times(s, id) + 1], owner := s.owner[id := Nobody])
  }

  // volume.Close.
  function ShutVolume(s: State, v: Option<nat>): State {
    if v.None? || v.value in s.once then s
    else s.(once := s.once + {v.value}, closes := s.closes[v.value := Times(s, v.value) + 1])
  }

  predicate Enabled(s: State, a: Action) {
    match a
    case Send(_) => !s.ended
    case EndQueue => !s.ended
    case CallClose => true
    case Lock(k) => k < |s.closers| && s.closers[k].Called?
    case CloseVol(k) => k < |s.closers| && s.closers[k].Snapped?
    case CloseStaged(k) => k < |s.closers| && s.closers[k].Held?
    case Drain(k) => k < |s.closers| && s.closers[k].Draining? && s.queue != []
    case CloseDrained(k) => k < |s.closers| && s.closers[k].Drained?
    case Return(k) => k < |s.closers| && s.closers[k].Draining? && s.queue == []
    case TakeForNext => s.trav.Idle?
    case TakeSpent => s.trav.Idle?
    case CloseTaken => s.trav.Previous? || s.trav.Spent?
    case Receive => s.trav.Receiving? && s.queue != []
    case ReceiveEnd => s.trav.Receiving? && s.queue == [] && s.ended
    case ReceiveDone => s.trav.Receiving? && s.done
    case Stage => s.trav.Received?
    case Open(_) => s.trav.Opening?
    case Unstage => s.trav.Opened?
    case CloseRaw => s.trav.Raw?
    case Publish(_) => s.trav.Fresh?
    case CloseDoomed => s.trav.Doomed?
  }

  function Apply(s: State, a: Action): State
    requires Enabled(s, a)
  {
    match a
    case Send(isNil) =>
      if isNil then s.(queue := s.queue + [None]) else s.(queue := s.queue + [Some(s.sent)], sent := s.sent + 1)
    case EndQueue => s.(ended := true)
    case CallClose => s.(closers := s.closers + [Called])
    case Lock(k) => Locked(s, k)
    case CloseVol(k) => ShutVolume(s, s.closers[k].v).(closers := s.closers[k := Held(s.closers[k].staged)])
    case CloseStaged(k) =>
      var s' := s.(closers := s.closers[k := Draining]);
      if s.closers[k].staged.Some? then Shut(s', s.closers[k].staged.value) else s'
    case Drain(k) =>
      var s' := s.(queue := s.queue[1..]);
      if s.queue[0].None? then s'
      else s'.(closers := s.closers[k := Drained(s.queue[0].value)], owner := s.owner[s.queue[0].value := Call(k)])
    case CloseDrained(k) => Shut(s.(closers := s.closers[k := Draining]), s.closers[k].id)
    case Return(k) => s.(closers := s.closers[k := Returned])
    case TakeForNext => s.(vol := None, trav := Previous(s.vol))
    case TakeSpent => s.(vol := None, trav := Spent(s.vol))
    case CloseTaken => ShutVolume(s, s.trav.v).(trav := if s.trav.Spent? then Idle else Receiving)
    case Receive =>
      var s' := s.(queue := s.queue[1..]);
      if s.queue[0].None? then s'.(trav := Idle)
      else s'.(trav := Received(s.queue[0].value), owner := s.owner[s.queue[0].value := Trav])
    case ReceiveEnd => s.(trav := Idle)
    case ReceiveDone => s.(trav := Idle)
    case Stage =>
      if s.done then s.(trav := Raw(s.trav.id))
      else s.(staging := Some(s.trav.id), trav := Opening(s.trav.id), owner := s.owner[s.trav.id := Staging])
    case Open(ok) => s.(trav := Opened(s.trav.id, ok))
    case Unstage =>
      if s.staging.None? then s.(trav := Idle)
      else if s.trav.ok then s.(staging := None, trav := Fresh(s.trav.id), owner := s.owner[s.trav.id := Volume])
      else s.(staging := None, trav := Raw(s.trav.id), owner := s.owner[s.trav.id := Trav])
    case CloseRaw => Shut(s.(trav := Idle), s.trav.id)
    case Publish(sameFormat) =>
      if s.done || !sameFormat then s.(trav := Doomed(s.trav.id)) else s.(vol := Some(s.trav.id), trav := Idle)
    case CloseDoomed => ShutVolume(s, Some(s.trav.id)).(trav := Idle)
  }

  // Close's critical section: done, the volume as it stands, and the stream being opened, which it claims.
  function Locked(s: State, k: nat): State
    requires k < |s.closers|
  {
    var s' := s.(done := true, first := if s.done then s.first else k, staging := None, closers := s.closers[k := Snapped(s.vol, s.staging)]);
    if s.staging.Some? then s'.(owner := s.owner[s.staging.value := Call(k)]) else s'
  }

  // ---- The invariant.

  predicate TravHolds(t: Traversal, id: nat) {
    (t.Received? || t.Raw?) && t.id == id
  }

  predicate CloserHolds(c: Closer, id: nat) {
    ((c.Snapped? || c.Held?) && c.staged == Some(id)) || (c.Drained? && c.id == id)
  }

  // A volume is on its way to being closed by t, or by c.
  predicate TravCloses(t: Traversal, id: nat) {
    ((t.Previous? || t.Spent?) && t.v == Some(id)) || ((t.Fresh? || t.Doomed?) && t.id == id)
  }

  predicate CloserCloses(c: Closer, id: nat) {
    c.Snapped? && c.v == Some(id)
  }

  // The queue holds streams sent and not yet received, each once.
  ghost predicate QueueFresh(s: State) {
    && (forall i :: 0 <= i < |s.queue| && s.queue[i].Some? ==> s.queue[i].value < s.sent && s.queue[i].value !in s.owner)
    && (forall i, j :: 0 <= i < j < |s.queue| && s.queue[i].Some? ==> s.queue[i] != s.queue[j])
    && (forall id :: id in s.owner ==> id < s.sent)
  }

  // The owner is where it is said to be, and no one else has the stream to close.
  ghost predicate OwnersTrue(s: State) {
    && (forall id :: id in s.owner && s.owner[id] == Trav ==> TravHolds(s.trav, id))
    && (forall id :: id in s.owner && s.owner[id] == Staging ==> s.staging == Some(id))
    && (forall id :: id in s.owner && s.owner[id].Call? ==> s.owner[id].k < |s.closers| && CloserHolds(s.closers[s.owner[id].k], id))
  }

  // And the other way round.
  ghost predicate ClaimsTrue(s: State) {
    && (s.trav.Received? || s.trav.Raw? ==> Owned(s.owner, s.trav.id, Trav))
    && (s.staging.Some? ==> Owned(s.owner, s.staging.value, Staging))
    && (s.staging.Some? ==> (s.trav.Opening? || s.trav.Opened?) && s.trav.id == s.staging.value)
    && (forall k :: 0 <= k < |s.closers| ==> ClaimTrue(s.owner, s.done, s.closers[k], k))
  }

  predicate ClaimTrue(owner: map<nat, Owner>, done: bool, c: Closer, k: nat) {
    && (c.Snapped? || c.Held? ==> c.staged.Some? ==> Owned(owner, c.staged.value, Call(k)))
    && (c.Drained? ==> Owned(owner, c.id, Call(k)))
    && (c.Snapped? && c.v.Some? ==> Owned(owner, c.v.value, Volume))
    && (!c.Called? ==> done)
  }

  predicate Owned(owner: map<nat, Owner>, id: nat, o: Owner) {
    id in owner && owner[id] == o
  }

  ghost predicate VolumesTrue(s: State) {
    && (s.vol.Some? ==> s.trav.Idle? && Owned(s.owner, s.vol.value, Volume))
    && (s.trav.Previous? || s.trav.Spent? ==> s.trav.v.Some? ==> Owned(s.owner, s.trav.v.value, Volume))
    && (s.trav.Fresh? || s.trav.Doomed? ==> Owned(s.owner, s.trav.id, Volume))
    && (forall id :: id in s.once ==> Owned(s.owner, id, Volume))
    && (forall id :: Owned(s.owner, id, Volume) && id !in s.once ==> Reachable(s, id))
  }

  // A volume not yet closed is about to be by the traversal, or it is published and the first Close
  // has not come yet, or has seen it.
  predicate Reachable(s: State, id: nat) {
    || TravCloses(s.trav, id)
    || (s.vol == Some(id) && (s.done ==> s.first < |s.closers| && CloserCloses(s.closers[s.first], id)))
  }

  // A stream has been closed once if it is nobody's any more, or a volume whose closeOnce has run.
  ghost predicate Counted(s: State) {
    forall id :: Times(s, id) == if id in s.owner && (s.owner[id] == Nobody || (s.owner[id] == Volume && id in s.once)) then 1 else 0
  }

  ghost predicate Inv(s: State) {
    QueueFresh(s) && OwnersTrue(s) && ClaimsTrue(s) && VolumesTrue(s) && Counted(s)
  }

  function Start(): State {
    State([], false, 0, false, 0, None, None, Idle, [], {}, map[], map[])
  }

  lemma {:induction false} StartInv()
    ensures Inv(Start())
  {
  }

  // Close's critical section; what it closes after it; its drain; the producer's steps and new calls of
  // Close; the traversal taking out and receiving; what it does with a stream it has received; and how
  // that ends.
  datatype Kind = Locks | Closes | Drains | Feeds | Takes | Opens | Settles

  function KindOf(a: Action): Kind {
    match a
    case Lock(_) => Locks
    case CloseVol(_) => Closes case CloseStaged(_) => Closes
    case Drain(_) => Drains case CloseDrained(_) => Drains case Return(_) => Drains
    case Send(_) => Feeds case EndQueue => Feeds case CallClose => Feeds
    case Stage => Opens case Open(_) => Opens case Unstage => Opens
    case CloseRaw => Settles case Publish(_) => Settles case CloseDoomed => Settles
    case _ => Takes
  }

  lemma {:induction false} LocksKeepQueue(s: State, a: Action)
    requires QueueFresh(s) && ClaimsTrue(s) && Enabled(s, a) && KindOf(a) == Locks
    ensures QueueFresh(Apply(s, a))
  {
  }

  lemma {:induction false} LocksKeepOwners(s: State, a: Action)
    requires QueueFresh(s) && OwnersTrue(s) && ClaimsTrue(s) && Enabled(s, a) && KindOf(a) == Locks
    ensures OwnersTrue(Apply(s, a))
  {
  }

  lemma {:induction false} LocksKeepClaims(s: State, a: Action)
    requires QueueFresh(s) && OwnersTrue(s) && ClaimsTrue(s) && VolumesTrue(s) && Enabled(s, a) && KindOf(a) == Locks
    ensures ClaimsTrue(Apply(s, a))
  {
  }

  lemma {:induction false} LocksKeepVolumes(s: State, a: Action)
    requires QueueFresh(s) && ClaimsTrue(s) && VolumesTrue(s) && Enabled(s, a) && KindOf(a) == Locks
    ensures VolumesTrue(Apply(s, a))
  {
  }

  lemma {:induction false} LocksKeepCounted(s: State, a: Action)
    requires QueueFresh(s) && ClaimsTrue(s) && VolumesTrue(s) && Counted(s) && Enabled(s, a) && KindOf(a) == Locks
    ensures Counted(Apply(s, a))
  {
  }

  lemma {:induction false} ClosesKeepQueue(s: State, a: Action)
    requires QueueFresh(s) && ClaimsTrue(s) && Enabled(s, a) && KindOf(a) == Closes
    ensures QueueFresh(Apply(s, a))
  {
  }

  lemma {:induction false} ClosesKeepOwners(s: State, a: Action)
    requires QueueFresh(s) && OwnersTrue(s) && ClaimsTrue(s) && Enabled(s, a) && KindOf(a) == Closes
    ensures OwnersTrue(Apply(s, a))
  {
  }

  lemma {:induction false} ClosesKeepClaims(s: State, a: Action)
    requires QueueFresh(s) && OwnersTrue(s) && ClaimsTrue(s) && VolumesTrue(s) && Enabled(s, a) && KindOf(a) == Closes
    ensures ClaimsTrue(Apply(s, a))
  {
    var s' := Apply(s, a);
    forall j | 0 <= j < |s'.closers| ensures ClaimTrue(s'.owner, s'.done, s'.closers[j], j) {
      assert ClaimTrue(s.owner, s.done, s.closers[j], j);
      assert ClaimTrue(s.owner, s.done, s.closers[a.k], a.k);
    }
  }

  lemma {:induction false} ClosesKeepVolumes(s: State, a: Action)
    requires QueueFresh(s) && ClaimsTrue(s) && VolumesTrue(s) && Enabled(s, a) && KindOf(a) == Closes
    ensures VolumesTrue(Apply(s, a))
  {
  }

  lemma {:induction false} ClosesKeepCounted(s: State, a: Action)
    requires QueueFresh(s) && ClaimsTrue(s) && VolumesTrue(s) && Counted(s) && Enabled(s, a) && KindOf(a) == Closes
    ensures Counted(Apply(s, a))
  {
  }

  lemma {:induction false} DrainsKeepQueue(s: State, a: Action)
    requires QueueFresh(s) && ClaimsTrue(s) && Enabled(s, a) && KindOf(a) == Drains
    ensures QueueFresh(Apply(s, a))
  {
  }

  lemma {:induction false} DrainsKeepOwners(s: State, a: Action)
    requires QueueFresh(s) && OwnersTrue(s) && ClaimsTrue(s) && Enabled(s, a) && KindOf(a) == Drains
    ensures OwnersTrue(Apply(s, a))
  {
  }

  lemma {:induction false} DrainsKeepClaims(s: State, a: Action)
    requires QueueFresh(s) && OwnersTrue(s) && ClaimsTrue(s) && VolumesTrue(s) && Enabled(s, a) && KindOf(a) == Drains
    ensures ClaimsTrue(Apply(s, a))
  {
    var s' := Apply(s, a);
    forall j | 0 <= j < |s'.closers| ensures ClaimTrue(s'.owner, s'.done, s'.closers[j], j) {
      assert ClaimTrue(s.owner, s.done, s.closers[j], j);
      assert ClaimTrue(s.owner, s.done, s.closers[a.k], a.k);
    }
  }

  lemma {:induction false} DrainsKeepVolumes(s: State, a: Action)
    requires QueueFresh(s) && ClaimsTrue(s) && VolumesTrue(s) && Enabled(s, a) && KindOf(a) == Drains
    ensures VolumesTrue(Apply(s, a))
  {
  }

  lemma {:induction false} DrainsKeepCounted(s: State, a: Action)
    requires QueueFresh(s) && ClaimsTrue(s) && VolumesTrue(s) && Counted(s) && Enabled(s, a) && KindOf(a) == Drains
    ensures Counted(Apply(s, a))
  {
  }

  lemma {:induction false} FeedsKeepQueue(s: State, a: Action)
    requires QueueFresh(s) && ClaimsTrue(s) && Enabled(s, a) && KindOf(a) == Feeds
    ensures QueueFresh(Apply(s, a))
  {
  }

  lemma {:induction false} FeedsKeepOwners(s: State, a: Action)
    requires QueueFresh(s) && OwnersTrue(s) && ClaimsTrue(s) && Enabled(s, a) && KindOf(a) == Feeds
    ensures OwnersTrue(Apply(s, a))
  {
  }

  lemma {:induction false} FeedsKeepClaims(s: State, a: Action)
    requires QueueFresh(s) && OwnersTrue(s) && ClaimsTrue(s) && VolumesTrue(s) && Enabled(s, a) && KindOf(a) == Feeds
    ensures ClaimsTrue(Apply(s, a))
  {
  }

  lemma {:induction false} FeedsKeepVolumes(s: State, a: Action)
    requires QueueFresh(s) && ClaimsTrue(s) && VolumesTrue(s) && Enabled(s, a) && KindOf(a) == Feeds
    ensures VolumesTrue(Apply(s, a))
  {
  }

  lemma {:induction false} FeedsKeepCounted(s: State, a: Action)
    requires QueueFresh(s) && ClaimsTrue(s) && VolumesTrue(s) && Counted(s) && Enabled(s, a) && KindOf(a) == Feeds
    ensures Counted(Apply(s, a))
  {
  }

  lemma {:induction false} TakesKeepQueue(s: State, a: Action)
    requires QueueFresh(s) && ClaimsTrue(s) && Enabled(s, a) && KindOf(a) == Takes
    ensures QueueFresh(Apply(s, a))
  {
  }

  lemma {:induction false} TakesKeepOwners(s: State, a: Action)
    requires QueueFresh(s) && OwnersTrue(s) && ClaimsTrue(s) && Enabled(s, a) && KindOf(a) == Takes
    ensures OwnersTrue(Apply(s, a))
  {
  }

  lemma {:induction false} TakesKeepClaims(s: State, a: Action)
    requires QueueFresh(s) && OwnersTrue(s) && ClaimsTrue(s) && VolumesTrue(s) && Enabled(s, a) && KindOf(a) == Takes
    ensures ClaimsTrue(Apply(s, a))
  {
  }

  lemma {:induction false} TakesKeepVolumes(s: State, a: Action)
    requires QueueFresh(s) && ClaimsTrue(s) && VolumesTrue(s) && Enabled(s, a) && KindOf(a) == Takes
    ensures VolumesTrue(Apply(s, a))
  {
  }

  lemma {:induction false} TakesKeepCounted(s: State, a: Action)
    requires QueueFresh(s) && ClaimsTrue(s) && VolumesTrue(s) && Counted(s) && Enabled(s, a) && KindOf(a) == Takes
    ensures Counted(Apply(s, a))
  {
    match a
    case CloseTaken =>
    case _ =>
  }

  lemma {:induction false} OpensKeepQueue(s: State, a: Action)
    requires QueueFresh(s) && ClaimsTrue(s) && Enabled(s, a) && KindOf(a) == Opens
    ensures QueueFresh(Apply(s, a))
  {
  }

  lemma {:induction false} OpensKeepOwners(s: State, a: Action)
    requires QueueFresh(s) && OwnersTrue(s) && ClaimsTrue(s) && Enabled(s, a) && KindOf(a) == Opens
    ensures OwnersTrue(Apply(s, a))
  {
  }

  lemma {:induction false} OpensKeepClaims(s: State, a: Action)
    requires QueueFresh(s) && OwnersTrue(s) && ClaimsTrue(s) && VolumesTrue(s) && Enabled(s, a) && KindOf(a) == Opens
    ensures ClaimsTrue(Apply(s, a))
  {
  }

  lemma {:induction false} OpensKeepVolumes(s: State, a: Action)
    requires QueueFresh(s) && ClaimsTrue(s) && VolumesTrue(s) && Enabled(s, a) && KindOf(a) == Opens
    ensures VolumesTrue(Apply(s, a))
  {
  }

  lemma {:induction false} OpensKeepCounted(s: State, a: Action)
    requires QueueFresh(s) && ClaimsTrue(s) && VolumesTrue(s) && Counted(s) && Enabled(s, a) && KindOf(a) == Opens
    ensures Counted(Apply(s, a))
  {
  }

  lemma {:induction false} SettlesKeepQueue(s: State, a: Action)
    requires QueueFresh(s) && ClaimsTrue(s) && Enabled(s, a) && KindOf(a) == Settles
    ensures QueueFresh(Apply(s, a))
  {
  }

  lemma {:induction false} SettlesKeepOwners(s: State, a: Action)
    requires QueueFresh(s) && OwnersTrue(s) && ClaimsTrue(s) && Enabled(s, a) && KindOf(a) == Settles
    ensures OwnersTrue(Apply(s, a))
  {
  }

  lemma {:induction false} SettlesKeepClaims(s: State, a: Action)
    requires QueueFresh(s) && OwnersTrue(s) && ClaimsTrue(s) && VolumesTrue(s) && Enabled(s, a) && KindOf(a) == Settles
    ensures ClaimsTrue(Apply(s, a))
  {
  }

  lemma {:induction false} SettlesKeepVolumes(s: State, a: Action)
    requires QueueFresh(s) && ClaimsTrue(s) && VolumesTrue(s) && Enabled(s, a) && KindOf(a) == Settles
    ensures VolumesTrue(Apply(s, a))
  {
  }

  lemma {:induction false} SettlesKeepCounted(s: State, a: Action)
    requires QueueFresh(s) && ClaimsTrue(s) && VolumesTrue(s) && Counted(s) && Enabled(s, a) && KindOf(a) == Settles
    ensures Counted(Apply(s, a))
  {
  }

  lemma {:induction false} StepKeeps(s: State, a: Action)
    requires Inv(s) && Enabled(s, a)
    ensures Inv(Apply(s, a))
  {
    match KindOf(a)
    case Locks =>
      LocksKeepQueue(s, a);
      LocksKeepOwners(s, a);
      LocksKeepClaims(s, a);
      LocksKeepVolumes(s, a);
      LocksKeepCounted(s, a);
    case Closes =>
      ClosesKeepQueue(s, a);
      ClosesKeepOwners(s, a);
      ClosesKeepClaims(s, a);
      ClosesKeepVolumes(s, a);
      ClosesKeepCounted(s, a);
    case Drains =>
      DrainsKeepQueue(s, a);
      DrainsKeepOwners(s, a);
      DrainsKeepClaims(s, a);
      DrainsKeepVolumes(s, a);
      DrainsKeepCounted(s, a);
    case Feeds =>
      FeedsKeepQueue(s, a);
      FeedsKeepOwners(s, a);
      FeedsKeepClaims(s, a);
      FeedsKeepVolumes(s, a);
      FeedsKeepCounted(s, a);
    case Takes =>
      TakesKeepQueue(s, a);
      TakesKeepOwners(s, a);
      TakesKeepClaims(s, a);
      TakesKeepVolumes(s, a);
      TakesKeepCounted(s, a);
    case Opens =>
      OpensKeepQueue(s, a);
      OpensKeepOwners(s, a);
      OpensKeepClaims(s, a);
      OpensKeepVolumes(s, a);
      OpensKeepCounted(s, a);
    case Settles =>
      SettlesKeepQueue(s, a);
      SettlesKeepOwners(s, a);
      SettlesKeepClaims(s, a);
      SettlesKeepVolumes(s, a);
      SettlesKeepCounted(s, a);
  }

  // ---- Runs: any interleaving of enabled steps.

  predicate Legal(s: State, run: seq<Action>)
    decreases |run|
  {
    run == [] || (Enabled(s, run[0]) && Legal(Apply(s, run[0]), run[1..]))
  }

  function End(s: State, run: seq<Action>): State
    requires Legal(s, run)
    decreases |run|
  {
    if run == [] then s else End(Apply(s, run[0]), run[1..])
  }

  lemma {:induction false} RunKeeps(s: State, run: seq<Action>)
    requires Inv(s) && Legal(s, run)
    ensures Inv(End(s, run))
    decreases |run|
  {
    if run != [] {
      StepKeeps(s, run[0]);
      RunKeeps(Apply(s, run[0]), run[1..]);
    }
  }

  // In every run every stream is closed at most once.
  lemma {:induction false} ClosedAtMostOnce(run: seq<Action>, id: nat)
    requires Legal(Start(), run)
    ensures Times(End(Start(), run), id) <= 1
  {
    StartInv();
    RunKeeps(Start(), run);
  }

  // Once done is closed it stays closed, and no volume is published any more.
  lemma {:induction false} NonePublishedAfterClose(s: State, run: seq<Action>)
    requires s.done && Legal(s, run)
    ensures End(s, run).done && (End(s, run).vol == s.vol || End(s, run).vol.None?)
    decreases |run|
  {
    if run != [] {
      NonePublishedAfterClose(Apply(s, run[0]), run[1..]);
    }
  }

  // Once every Close call has returned, there having been one, and the traversal is between calls,
  // every stream received has been closed, and just once.
  lemma {:induction false} AllClosedInTheEnd(run: seq<Action>, id: nat)
    requires Legal(Start(), run)
    ensures var s := End(Start(), run);
      s.trav.Idle? && s.closers != [] && (forall k :: 0 <= k < |s.closers| ==> s.closers[k].Returned?) && id in s.owner
      ==> Times(s, id) == 1
  {
    StartInv();
    RunKeeps(Start(), run);
    var s := End(Start(), run);
    if s.closers != [] && id in s.owner {
      assert ClaimTrue(s.owner, s.done, s.closers[0], 0);
      if s.owner[id].Call? {
        assert ClaimTrue(s.owner, s.done, s.closers[s.owner[id].k], s.owner[id].k);
      } else if s.owner[id] == Volume && id !in s.once {
        assert Owned(s.owner, id, Volume) && Reachable(s, id);
      }
    }
  }
}
