/**
 Credential rotation between two paired nodes: the caller keeps a current and possibly a
 previous secret, the peer keeps an inbound credential and possibly a pending one that
 expires. Requests and responses may be lost and may be refused. Digests are injective, so
 a secret stands for its digest; secrets are numbered in the order they are drawn.
 */
module Rotation {
  import opened Basics

  type Secret = nat

  datatype Pending = Pending(secret: Secret, live: bool)

  datatype Pair = Pair(
    cur: Secret, prev: Option<Secret>, callerActive: bool,
    inbound: Secret, pending: Option<Pending>, peerActive: bool,
    next: Secret)

  /** What happens to one request: lost on the way, refused for reasons of its own, or answered. */
  datatype Fate = LostRequest | Refused(promoted: bool, replyLost: bool) | Handled(ok: bool, replyLost: bool)

  /** A request as its handler sees it: a plain call, or the installation of a pending digest. */
  datatype Request = Plain | Install(secret: Secret)

  datatype Reply = Lost | Unauthorized | Failed | Accepted

  // ---------------------------------------------------------------------------
  // The peer

  predicate Known(p: Pair, s: Secret) {
    p.peerActive && (p.inbound == s || p.pending == Some(Pending(s, true)))
  }

  /** The first use of a live pending credential makes it the inbound one. */
  function Promote(p: Pair, s: Secret): Pair {
    if p.inbound != s && p.pending == Some(Pending(s, true)) then p.(inbound := s, pending := None) else p
  }

  function Delivered(lost: bool, r: Reply): Reply {
    if lost then Lost else r
  }

  /** One request carried by secret `s`: the peer's new state and what the caller gets back. */
  function Send(p: Pair, s: Secret, fate: Fate, req: Request): (Pair, Reply) {
    match fate
    case LostRequest => (p, Lost)
    case Refused(promoted, lost) =>
      (if promoted && Known(p, s) then Promote(p, s) else p, Delivered(lost, Unauthorized))
    case Handled(ok, lost) =>
      if !Known(p, s) then (p, Delivered(lost, Unauthorized))
      else if !ok then (Promote(p, s), Delivered(lost, Failed))
      else
        var q := Promote(p, s);
        (if req.Install? then q.(pending := Some(Pending(req.secret, true))) else q, Delivered(lost, Accepted))
  }

  // ---------------------------------------------------------------------------
  // The caller

  /** The current secret is refused and an overlap is retained. */
  predicate FallsBack(p: Pair, first: Reply) {
    first == Unauthorized && p.prev.Some? && p.prev.value != p.cur
  }

  /** One call: the current secret first, the previous one if that is refused. */
  function Do(p: Pair, f1: Fate, f2: Fate, req: Request): (Pair, Reply) {
    if !p.callerActive then (p, Failed)
    else
      var (q, r) := Send(p, p.cur, f1, req);
      if FallsBack(p, r) then Send(q, p.prev.value, f2, req)
      else (if r == Accepted then q.(prev := None) else q, r)
  }

  /** The request was accepted by the fallback secret. */
  predicate CarriedByFallback(p: Pair, f1: Fate, f2: Fate, req: Request) {
    && p.callerActive
    && FallsBack(p, Send(p, p.cur, f1, req).1)
    && Do(p, f1, f2, req).1 == Accepted
  }

  /** Draw a secret, install it as the peer's pending credential, then switch to it. */
  function Rotate(p: Pair, f1: Fate, f2: Fate): Pair {
    Switch(p, Do(Drawn(p), f1, f2, Installation(p)))
  }

  function Drawn(p: Pair): Pair {
    p.(next := p.next + 1)
  }

  function Installation(p: Pair): Request {
    Install(p.next)
  }

  function Switch(p: Pair, done: (Pair, Reply)): Pair {
    if done.1 == Accepted then done.0.(cur := p.next, prev := Some(p.cur)) else done.0
  }

  datatype Event =
    | Call(f1: Fate, f2: Fate)
    | Rotation(f1: Fate, f2: Fate)
    | Expire
    | SetCaller(active: bool)
    | SetPeer(active: bool)

  function Step(p: Pair, e: Event): Pair {
    match e
    case Call(f1, f2) => Do(p, f1, f2, Plain).0
    case Rotation(f1, f2) => Rotate(p, f1, f2)
    case Expire => if p.pending.Some? then p.(pending := Some(p.pending.value.(live := false))) else p
    case SetCaller(a) => p.(callerActive := a)
    case SetPeer(a) => p.(peerActive := a)
  }

  predicate FallbackRotation(p: Pair, e: Event) {
    e.Rotation? && CarriedByFallback(p.(next := p.next + 1), e.f1, e.f2, Install(p.next))
  }

  // ---------------------------------------------------------------------------
  // What a pair needs to work

  const Clear := Handled(true, false)

  /** With both members active, a call over a faultless network gets through. */
  predicate Works(p: Pair) {
    Do(p.(callerActive := true, peerActive := true), Clear, Clear, Plain).1 == Accepted
  }

  /** The peer's inbound credential is the caller's current or previous secret. */
  predicate Anchored(p: Pair) {
    p.inbound == p.cur || p.prev == Some(p.inbound)
  }

  /** Not anchored, but the pending credential is the current secret and has not expired. */
  predicate OnPending(p: Pair) {
    !Anchored(p) && p.pending == Some(Pending(p.cur, true))
  }

  predicate Synchronized(p: Pair) {
    p.inbound == p.cur && p.prev.None? && p.pending.None? && p.cur < p.next
  }

  /** Secrets are drawn fresh; a pending credential is the current secret or one nobody uses. */
  predicate Fresh(p: Pair) {
    && p.cur < p.next && p.inbound < p.next
    && (p.prev.Some? ==> p.prev.value < p.next && p.prev.value != p.cur)
    && (p.pending.Some? ==>
          var s := p.pending.value.secret;
          s < p.next && s != p.inbound && (p.prev.Some? ==> s != p.prev.value))
    && (!Anchored(p) ==> p.pending.Some? && p.pending.value.secret == p.cur)
  }

  /** The secret is nowhere in use. */
  predicate Unused(p: Pair, s: Secret) {
    && s < p.next && s != p.cur && s != p.inbound
    && (p.prev.Some? ==> p.prev.value != s)
    && (p.pending.Some? ==> p.pending.value.secret != s)
  }

  lemma SendFresh(p: Pair, s: Secret, fate: Fate, req: Request)
    requires Fresh(p) && (s == p.cur || p.prev == Some(s)) && (req.Install? ==> Unused(p, req.secret))
    ensures Fresh(Send(p, s, fate, req).0)
    ensures var (q, r) := Send(p, s, fate, req);
            q.cur == p.cur && q.prev == p.prev && q.next == p.next
    ensures var (q, r) := Send(p, s, fate, req);
            r == Unauthorized && req.Install? ==> Unused(q, req.secret)
    ensures var (q, r) := Send(p, s, fate, req);
            r == Accepted ==> q.inbound == s && (req.Install? ==> q.pending == Some(Pending(req.secret, true)))
  {
  }

  /** A call leaves the secrets in order; an accepted installation is pending. */
  lemma DoFresh(p: Pair, f1: Fate, f2: Fate, req: Request)
    requires Fresh(p) == true && (req.Install? ==> Unused(p, req.secret) == true)
    ensures var (q, r) := Do(p, f1, f2, req);
            && Fresh(q) && q.cur == p.cur && q.next == p.next
            && (r == Accepted && req.Install? ==> q.pending == Some(Pending(req.secret, true)))
            && (r == Accepted && req.Install? ==> q.inbound == p.cur || p.prev == Some(q.inbound))
  {
    SendFresh(p, p.cur, f1, req);
    var (q, r) := Send(p, p.cur, f1, req);
    if FallsBack(p, r) {
      SendFresh(q, p.prev.value, f2, req);
    }
  }

  /** Switching to an installed secret keeps the order. */
  lemma SwitchFresh(p: Pair, done: (Pair, Reply))
    requires Fresh(done.0) == true && done.0.cur == p.cur && p.cur != p.next
    requires done.1 == Accepted ==> done.0.pending == Some(Pending(p.next, true))
    ensures Fresh(Switch(p, done)) == true
  {
  }

  lemma DrawFresh(p: Pair)
    requires Fresh(p)
    ensures Fresh(Drawn(p)) == true && Unused(Drawn(p), p.next) == true && p.cur != p.next
  {
  }

  lemma RotatedFresh(p: Pair, p1: Pair, f1: Fate, f2: Fate, req: Request, done: (Pair, Reply))
    requires Fresh(p) == true && p1 == Drawn(p) && req == Installation(p) && done == Do(p1, f1, f2, req)
    ensures Fresh(Switch(p, done)) == true
  {
    DrawFresh(p);
    DoFresh(p1, f1, f2, req);
    SwitchFresh(p, done);
  }

  lemma RotateFresh(p: Pair, f1: Fate, f2: Fate)
    requires Fresh(p)
    ensures Fresh(Rotate(p, f1, f2)) == true
  {
    RotatedFresh(p, Drawn(p), f1, f2, Installation(p), Do(Drawn(p), f1, f2, Installation(p)));
  }

  lemma StepFresh(p: Pair, e: Event)
    requires Fresh(p)
    ensures Fresh(Step(p, e))
  {
    match e
    case Call(f1, f2) => DoFresh(p, f1, f2, Plain);
    case Rotation(f1, f2) => RotateFresh(p, f1, f2);
    case _ =>
  }

  /** A working pair is one whose inbound or live pending credential the caller holds. */
  lemma WorksExactly(p: Pair)
    requires Fresh(p)
    ensures Works(p) <==> Anchored(p) || OnPending(p)
  {
  }

  /** The previous secret is dropped only when the peer holds the current one. */
  lemma PreviousDroppedSafely(p: Pair, e: Event)
    requires p.prev.Some? && Step(p, e).prev.None?
    ensures Step(p, e).inbound == Step(p, e).cur
  {
  }

  /** An accepted call leaves no previous secret, unless it was that secret that was accepted. */
  lemma AcceptedDrops(p: Pair, f1: Fate, f2: Fate, req: Request)
    requires Do(p, f1, f2, req).1 == Accepted
    ensures var q := Do(p, f1, f2, req).0;
            || (q.inbound == q.cur == p.cur && q.prev == None)
            || (p.prev.Some? && p.prev.value != p.cur && q.prev == p.prev && q.inbound == p.prev.value)
  {
  }

  /** An anchored pair loses its anchor exactly by a rotation the fallback secret carried. */
  lemma AnchorLost(p: Pair, e: Event)
    requires Fresh(p) && Anchored(p)
    ensures Anchored(Step(p, e)) <==> !FallbackRotation(p, e)
    ensures FallbackRotation(p, e) ==> OnPending(Step(p, e))
  {
  }

  /** A pair on its pending credential stays usable until that credential expires. */
  lemma PendingHolds(p: Pair, e: Event)
    requires Fresh(p) && OnPending(p)
    ensures Works(Step(p, e)) <==> !e.Expire?
  {
    StepFresh(p, e);
    WorksExactly(Step(p, e));
  }

  /** A pair that does not work never works again. */
  lemma StrandedForever(p: Pair, e: Event)
    requires Fresh(p) && !Works(p)
    ensures !Works(Step(p, e))
  {
    StepFresh(p, e);
    WorksExactly(p);
    WorksExactly(Step(p, e));
  }

  // ---------------------------------------------------------------------------
  // Whole runs, through the three conditions a pair can be in

  datatype Condition = OnInbound | OnPendingOnly | Stranded

  function ConditionOf(p: Pair): Condition {
    if Anchored(p) then OnInbound else if OnPending(p) then OnPendingOnly else Stranded
  }

  datatype Happening = FallbackRotated | PendingExpired | Other

  function HappeningOf(p: Pair, e: Event): Happening {
    if FallbackRotation(p, e) then FallbackRotated else if e.Expire? then PendingExpired else Other
  }

  predicate Moves(a: Condition, h: Happening, b: Condition) {
    match a
    case OnInbound => b == if h == FallbackRotated then OnPendingOnly else OnInbound
    case OnPendingOnly => if h == PendingExpired then b == Stranded else b != Stranded
    case Stranded => b == Stranded
  }

  lemma StepMoves(p: Pair, e: Event)
    requires Fresh(p)
    ensures Moves(ConditionOf(p), HappeningOf(p, e), ConditionOf(Step(p, e))) == true
  {
    StepFresh(p, e);
    WorksExactly(p);
    WorksExactly(Step(p, e));
    match ConditionOf(p)
    case OnInbound => AnchorLost(p, e);
    case OnPendingOnly => PendingHolds(p, e);
    case Stranded => StrandedForever(p, e);
  }

  /** The conditions of a pair before, during and after a run. */
  function Conditions(p: Pair, run: seq<Event>): seq<Condition>
    decreases |run|
  {
    [ConditionOf(p)] + if run == [] then [] else Conditions(Step(p, run[0]), run[1..])
  }

  function Happenings(p: Pair, run: seq<Event>): seq<Happening>
    decreases |run|
  {
    if run == [] then [] else [HappeningOf(p, run[0])] + Happenings(Step(p, run[0]), run[1..])
  }

  function After(p: Pair, run: seq<Event>): Pair
    decreases |run|
  {
    if run == [] then p else After(Step(p, run[0]), run[1..])
  }

  /** A run of conditions that moves by the rules. */
  predicate Lawful(cs: seq<Condition>, hs: seq<Happening>) {
    |cs| == |hs| + 1 && forall k :: 0 <= k < |hs| ==> Moves(cs[k], hs[k], cs[k + 1])
  }

  lemma {:induction false} RunLawful(p: Pair, run: seq<Event>)
    requires Fresh(p)
    ensures Lawful(Conditions(p, run), Happenings(p, run)) && |Happenings(p, run)| == |run|
    ensures Conditions(p, run)[0] == ConditionOf(p) && Conditions(p, run)[|run|] == ConditionOf(After(p, run))
    ensures Fresh(After(p, run))
    decreases |run|
  {
    if run != [] {
      StepFresh(p, run[0]);
      StepMoves(p, run[0]);
      RunLawful(Step(p, run[0]), run[1..]);
      var cs, hs := Conditions(p, run), Happenings(p, run);
      forall k | 0 <= k < |hs| ensures Moves(cs[k], hs[k], cs[k + 1]) {
        if k > 0 {
          assert cs[k] == Conditions(Step(p, run[0]), run[1..])[k - 1];
          assert hs[k] == Happenings(Step(p, run[0]), run[1..])[k - 1];
        }
      }
    }
  }

  /** Rotation `i` was carried by the fallback, its credential stayed unused, and expired at `j`. */
  predicate ExpiredUnused(cs: seq<Condition>, hs: seq<Happening>, i: nat, j: nat)
    requires |cs| == |hs| + 1
  {
    && i < j < |hs| && hs[i] == FallbackRotated && cs[i] == OnInbound && hs[j] == PendingExpired
    && forall k :: i < k <= j ==> cs[k] == OnPendingOnly
  }

  lemma {:induction false} PendingSince(cs: seq<Condition>, hs: seq<Happening>, n: nat) returns (i: nat)
    requires Lawful(cs, hs) && cs[0] == OnInbound && n < |cs| && cs[n] == OnPendingOnly
    ensures i < n && hs[i] == FallbackRotated && cs[i] == OnInbound
    ensures forall k :: i < k <= n ==> cs[k] == OnPendingOnly
  {
    assert Moves(cs[n - 1], hs[n - 1], cs[n]);
    if cs[n - 1] == OnInbound {
      i := n - 1;
    } else {
      i := PendingSince(cs, hs, n - 1);
    }
  }

  lemma {:induction false} StrandedBecause(cs: seq<Condition>, hs: seq<Happening>, n: nat) returns (i: nat, j: nat)
    requires Lawful(cs, hs) && cs[0] == OnInbound && n < |cs| && cs[n] == Stranded
    ensures ExpiredUnused(cs, hs, i, j)
  {
    assert Moves(cs[n - 1], hs[n - 1], cs[n]);
    if cs[n - 1] == Stranded {
      i, j := StrandedBecause(cs, hs, n - 1);
    } else {
      j := n - 1;
      i := PendingSince(cs, hs, j);
    }
  }

  lemma {:induction false} StrandedStays(cs: seq<Condition>, hs: seq<Happening>, m: nat, n: nat)
    requires Lawful(cs, hs) && m <= n < |cs| && cs[m] == Stranded
    ensures cs[n] == Stranded
    decreases n
  {
    if m < n {
      StrandedStays(cs, hs, m, n - 1);
      assert Moves(cs[n - 1], hs[n - 1], cs[n]);
    }
  }

  lemma {:induction false} InboundStays(cs: seq<Condition>, hs: seq<Happening>, n: nat)
    requires Lawful(cs, hs) && cs[0] == OnInbound && n < |cs|
    requires forall k :: 0 <= k < n ==> hs[k] != FallbackRotated
    ensures cs[n] == OnInbound
  {
    if n > 0 {
      InboundStays(cs, hs, n - 1);
      assert Moves(cs[n - 1], hs[n - 1], cs[n]);
    }
  }

  /**
   From a synchronized pair, in every run without a rotation carried by the fallback secret,
   the peer's inbound credential ends as the caller's current or previous secret, and the
   pair works.
   */
  lemma RotationNeverStrands(p: Pair, run: seq<Event>)
    requires Synchronized(p) && FallbackRotated !in Happenings(p, run)
    ensures Anchored(After(p, run)) && Works(After(p, run))
  {
    RunLawful(p, run);
    InboundStays(Conditions(p, run), Happenings(p, run), |run|);
    WorksExactly(After(p, run));
  }

  /**
   A run from a synchronized pair ends with a pair that no longer works exactly when some
   rotation was carried by the fallback secret and its credential expired unused.
   */
  lemma StrandedExactly(p: Pair, run: seq<Event>)
    requires Synchronized(p)
    ensures |Conditions(p, run)| == |Happenings(p, run)| + 1
    ensures !Works(After(p, run)) <==>
            exists i: nat, j: nat :: ExpiredUnused(Conditions(p, run), Happenings(p, run), i, j)
  {
    RunLawful(p, run);
    WorksExactly(After(p, run));
    var cs, hs := Conditions(p, run), Happenings(p, run);
    if cs[|run|] == Stranded {
      var i, j := StrandedBecause(cs, hs, |run|);
    }
    if i: nat, j: nat :| ExpiredUnused(cs, hs, i, j) {
      assert Moves(cs[j], hs[j], cs[j + 1]);
      StrandedStays(cs, hs, j + 1, |run|);
    }
  }

  const Rotated := Rotation(Clear, Clear)

  /** A pair after a rotation over a faultless network. */
  function Installed(p: Pair, prev: Secret): Pair {
    p.(cur := p.next, prev := Some(prev), pending := Some(Pending(p.next, true)), next := p.next + 1)
  }

  function Idled(p: Pair): Pair {
    p.(pending := if p.pending.Some? then Some(Pending(p.pending.value.secret, false)) else None)
  }

  lemma FirstRotation(p: Pair)
    requires Synchronized(p) && p.callerActive && p.peerActive
    ensures Step(p, Rotated) == Installed(p, p.cur)
  {
  }

  /** A rotation of a pair whose current secret has expired unused is carried by the previous one. */
  lemma SecondRotation(p: Pair)
    requires p.callerActive && p.peerActive && p.prev == Some(p.inbound) && p.cur != p.inbound
    requires p.pending == Some(Pending(p.cur, false))
    ensures Step(p, Rotated) == Installed(p, p.cur)
  {
  }

  lemma IdleStrands(p: Pair)
    requires p.callerActive && p.peerActive && p.inbound != p.cur && p.prev.Some? && p.prev.value != p.inbound && p.pending.Some?
    ensures !Works(Idled(p))
  {
  }

  /**
   Such runs exist: two rotations over a faultless network, each left unused until its
   credential expires, strand every synchronized pair of active members. The first leaves
   the peer on the previous secret, so the second is carried by it.
   */
  lemma TwoIdleRotationsStrand(p: Pair)
    requires Synchronized(p) && p.callerActive && p.peerActive
    ensures !Works(After(p, [Rotated, Expire, Rotated, Expire]))
  {
    var p2 := Idled(Installed(p, p.cur));
    FirstRotation(p);
    assert Step(Installed(p, p.cur), Expire) == p2;
    SecondRotation(p2);
    assert Step(Installed(p2, p2.cur), Expire) == Idled(Installed(p2, p2.cur));
    IdleStrands(Installed(p2, p2.cur));
    AfterFour(p, Rotated, Expire, Rotated, Expire);
  }

  lemma AfterFour(p: Pair, a: Event, b: Event, c: Event, d: Event)
    ensures After(p, [a, b, c, d]) == Step(Step(Step(Step(p, a), b), c), d)
  {
    AfterFirst(p, a, [b, c, d]);
    AfterFirst(Step(p, a), b, [c, d]);
    AfterFirst(Step(Step(p, a), b), c, [d]);
    AfterFirst(Step(Step(Step(p, a), b), c), d, []);
    assert [a] + [b, c, d] == [a, b, c, d] && [b] + [c, d] == [b, c, d] && [c] + [d] == [c, d] && [d] + [] == [d];
  }

  lemma AfterFirst(p: Pair, e: Event, rest: seq<Event>)
    ensures After(p, [e] + rest) == After(Step(p, e), rest)
  {
    assert ([e] + rest)[1..] == rest;
  }

  // ---------------------------------------------------------------------------
  // The member rows of the two nodes, updated in place

  /** The peer's row for the caller. */
  class PeerMember {
    var inbound: Secret
    var pending: Option<Pending>
    var active: bool

    /** Checks a presented secret and promotes the pending credential on its first use. */
    method Authenticate(s: Secret) returns (ok: bool)
      modifies this
      ensures active == old(active)
      ensures ok == (active && (old(inbound) == s || old(pending) == Some(Pending(s, true))))
      ensures ok ==> inbound == s && pending == if old(inbound) == s then old(pending) else None
      ensures !ok ==> inbound == old(inbound) && pending == old(pending)
    {
      ok := active && (inbound == s || pending == Some(Pending(s, true)));
      if ok && inbound != s {
        inbound, pending := s, None;
      }
    }

    method Receive(s: Secret, fate: Fate, req: Request) returns (r: Reply)
      modifies this
      ensures active == old(active)
      ensures forall p: Pair :: p.inbound == old(inbound) && p.pending == old(pending) && p.peerActive == old(active) ==>
                Send(p, s, fate, req) == (p.(inbound := inbound, pending := pending), r)
      ensures fate == Handled(true, false) ==>
                r == if active && (old(inbound) == s || old(pending) == Some(Pending(s, true))) then Accepted else Unauthorized
      ensures r == Accepted ==> inbound == s && (req.Install? ==> pending == Some(Pending(req.secret, true)))
      ensures r == Accepted ==> fate == Handled(true, false)
    {
      match fate
      case LostRequest =>
        r := Lost;
      case Refused(promoted, lost) =>
        if promoted {
          var _ := Authenticate(s);
        }
        r := if lost then Lost else Unauthorized;
      case Handled(done, lost) =>
        var ok := Authenticate(s);
        if !ok {
          r := Unauthorized;
        } else if !done {
          r := Failed;
        } else {
          if req.Install? {
            pending := Some(Pending(req.secret, true));
          }
          r := Accepted;
        }
        r := if lost then Lost else r;
    }
  }

  /** The caller's row for the peer. */
  class CallerMember {
    var cur: Secret
    var prev: Option<Secret>
    var active: bool
    var next: Secret

    ghost function With(peer: PeerMember): Pair
      reads this, peer
    {
      Pair(cur, prev, active, peer.inbound, peer.pending, peer.active, next)
    }

    method Request(peer: PeerMember, f1: Fate, f2: Fate, req: Request) returns (r: Reply)
      modifies this, peer
      ensures (With(peer), r) == Do(old(With(peer)), f1, f2, req)
      ensures cur == old(cur) && next == old(next) && active == old(active) && peer.active == old(peer.active)
      ensures r != Accepted ==> prev == old(prev)
      // accepted with the current secret, no previous one is left; accepted with the previous one, it stays
      ensures r == Accepted ==> active && ((peer.inbound == cur && prev == None)
                                           || (old(prev).Some? && old(prev).value != cur && prev == old(prev) && peer.inbound == prev.value))
      ensures r == Accepted && req.Install? ==> peer.pending == Some(Pending(req.secret, true))
      // over a faultless network a secret that the peer knows gets through, the current one first
      ensures active && f1 == Handled(true, false) && peer.active && (old(peer.inbound) == cur || old(peer.pending) == Some(Pending(cur, true))) ==>
                r == Accepted && prev == None && peer.inbound == cur
      ensures active && f1 == f2 == Handled(true, false) && peer.active
              && old(peer.inbound) != cur && old(peer.pending) != Some(Pending(cur, true)) ==>
                (r == Accepted <==> old(prev).Some? && old(prev).value != cur
                                    && (old(peer.inbound) == old(prev).value || old(peer.pending) == Some(Pending(old(prev).value, true))))
    {
      if !active {
        return Failed;
      }
      r := peer.Receive(cur, f1, req);
      if r == Unauthorized && prev.Some? && prev.value != cur {
        r := peer.Receive(prev.value, f2, req);
      } else if r == Accepted {
        prev := None;
      }
    }

    method RotateSecret(peer: PeerMember, f1: Fate, f2: Fate) returns (ok: bool)
      modifies this, peer
      ensures With(peer) == Rotate(old(With(peer)), f1, f2)
      ensures ok ==> cur == old(next) && prev == Some(old(cur)) && peer.pending == Some(Pending(cur, true))
      ensures !ok ==> cur == old(cur) && prev == old(prev)
      ensures next == old(next) + 1 && active == old(active) && peer.active == old(peer.active)
    {
      var sec, current := next, cur;
      next := next + 1;
      ghost var armed := With(peer);
      var r := Request(peer, f1, f2, Install(sec));
      ghost var done := (With(peer), r);
      assert armed == Drawn(old(With(peer))) && Install(sec) == Installation(old(With(peer)));
      assert done == Do(armed, f1, f2, Install(sec));
      ok := r == Accepted;
      if ok {
        cur, prev := sec, Some(current);
      }
    }
  }
}
