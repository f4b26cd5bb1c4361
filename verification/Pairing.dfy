/**
 Pairing by invitation: a host's invitations, join requests and member rows, and a joining
 node that submits, waits for the decision and collects the result. Random values are drawn
 from a counter, digests are the values themselves, and expiry is an input of each call.
 */
module Pairing {
  import opened Basics

  datatype State = Pending | Approved | Rejected | Expired | Used

  /** A submission: the node it claims to be and the credential the host is to use towards it. */
  datatype Request = Request(secret: nat, invitation: nat, node: string, credential: nat, state: State, consumed: bool)

  datatype Member = Member(outbound: nat, inbound: nat)

  datatype Tables = Tables(invitations: map<nat, State>, requests: map<nat, Request>, members: map<string, Member>)

  // ---------------------------------------------------------------------------
  // The host's operations; `draw` is a value never drawn before, and so is every later number

  /** Accepts a submission for a pending invitation: request number and request secret are drawn. */
  function Submitted(t: Tables, token: nat, valid: bool, node: string, credential: nat, draw: nat): (Tables, Option<nat>) {
    if valid && token in t.invitations && t.invitations[token] == Pending then
      (t.(requests := t.requests[draw := Request(draw + 1, token, node, credential, Pending, false)],
          invitations := t.invitations[token := Used]), Some(draw))
    else (t, None)
  }

  /** Approval creates or refreshes the member row, with a drawn placeholder for the inbound secret. */
  function Decided(t: Tables, id: nat, approve: bool, valid: bool, draw: nat): Tables {
    if valid && id in t.requests && t.requests[id].state == Pending then
      var r := t.requests[id];
      if approve then
        t.(requests := t.requests[id := r.(state := Approved)], members := t.members[r.node := Member(r.credential, draw)])
      else t.(requests := t.requests[id := r.(state := Rejected)])
    else t
  }

  datatype PollResult = Unavailable | Answer(state: State) | Grant(credential: nat)

  /** The first poll of an approved request draws the credential and consumes the request. */
  function Polled(t: Tables, id: nat, secret: nat, expired: bool, draw: nat): (Tables, PollResult) {
    if id !in t.requests || t.requests[id].secret != secret then (t, Unavailable)
    else
      var r := t.requests[id];
      if r.state == Pending && expired then (t, Answer(Expired))
      else if r.state != Approved then (t, Answer(r.state))
      else if r.consumed then (t, Unavailable)
      else
        (t.(requests := t.requests[id := r.(state := Used, consumed := true)],
            members := if r.node in t.members then t.members[r.node := t.members[r.node].(inbound := draw)] else t.members),
         Grant(draw))
  }

  class Service {
    var invitations: map<nat, State>
    var requests: map<nat, Request>
    var members: map<string, Member>

    function Rows(): Tables
      reads this
    {
      Tables(invitations, requests, members)
    }

    method SubmitJoin(token: nat, valid: bool, node: string, credential: nat, draw: nat) returns (id: Option<nat>)
      modifies this
      ensures (Rows(), id) == Submitted(old(Rows()), token, valid, node, credential, draw)
      ensures id == if valid && token in old(invitations) && old(invitations)[token] == Pending then Some(draw) else None
      ensures id.None? ==> Rows() == old(Rows())
      ensures id.Some? ==> members == old(members) && invitations == old(invitations)[token := Used]
                           && requests == old(requests)[draw := Request(draw + 1, token, node, credential, Pending, false)]
    {
      if !valid || token !in invitations || invitations[token] != Pending {
        return None;
      }
      requests := requests[draw := Request(draw + 1, token, node, credential, Pending, false)];
      if invitations[token] == Pending {
        invitations := invitations[token := Used];
      }
      return Some(draw);
    }

    method DecideJoin(id: nat, approve: bool, valid: bool, draw: nat)
      modifies this
      ensures Rows() == Decided(old(Rows()), id, approve, valid, draw)
      ensures !valid || id !in old(requests) || old(requests)[id].state != Pending ==> Rows() == old(Rows())
      ensures valid && id in old(requests) && old(requests)[id].state == Pending ==>
                requests == old(requests)[id := old(requests)[id].(state := if approve then Approved else Rejected)]
                && invitations == old(invitations)
      ensures valid && id in old(requests) && old(requests)[id].state == Pending ==>
                members == if approve then old(members)[old(requests)[id].node := Member(old(requests)[id].credential, draw)] else old(members)
    {
      if id !in requests || requests[id].state != Pending || !valid {
        return;
      }
      var r := requests[id];
      var state := Rejected;
      if approve {
        state := Approved;
        members := members[r.node := Member(r.credential, draw)];
      }
      if requests[id].state == Pending {
        requests := requests[id := r.(state := state)];
      }
    }

    method PollJoin(id: nat, secret: nat, expired: bool, draw: nat) returns (result: PollResult)
      modifies this
      ensures (Rows(), result) == Polled(old(Rows()), id, secret, expired, draw)
      // a grant takes the request's secret, and an approved request that is not used up
      ensures result.Grant? <==> id in old(requests) && old(requests)[id].secret == secret
                                 && old(requests)[id].state == Approved && !old(requests)[id].consumed
      ensures !result.Grant? ==> Rows() == old(Rows())
      ensures result.Grant? ==>
                result == Grant(draw) && invitations == old(invitations)
                && requests == old(requests)[id := old(requests)[id].(state := Used, consumed := true)]
                && members == if old(requests)[id].node in old(members)
                              then old(members)[old(requests)[id].node := Member(old(members)[old(requests)[id].node].outbound, draw)]
                              else old(members)
      // any other answer says why
      ensures id !in old(requests) || old(requests)[id].secret != secret ==> result == Unavailable
      ensures id in old(requests) && old(requests)[id].secret == secret && old(requests)[id].state != Approved ==>
                result == Answer(if old(requests)[id].state == Pending && expired then Expired else old(requests)[id].state)
    {
      if id !in requests || requests[id].secret != secret {
        return Unavailable;
      }
      var r := requests[id];
      if r.state == Pending && expired {
        return Answer(Expired);
      }
      if r.state == Rejected {
        return Answer(Rejected);
      }
      if r.state != Approved {
        return Answer(r.state);
      }
      if r.consumed {
        return Unavailable;
      }
      if r.node in members {
        members := members[r.node := members[r.node].(inbound := draw)];
      }
      requests := requests[id := r.(state := Used, consumed := true)];
      return Grant(draw);
    }
  }

  // ---------------------------------------------------------------------------
  // A joining node and its host

  datatype Outbound = Outbound(request: nat, secret: nat, inbound: nat, state: State)

  /** The host's tables, the joining node's own name, joins and row for the host, and the next value to draw. */
  datatype World = World(host: Tables, me: string, joins: map<nat, Outbound>, peer: Option<Member>, next: nat)

  datatype Event =
    | Invite
    | Join(token: nat, valid: bool, lost: bool)
    | OtherJoin(token: nat, valid: bool, node: string)
    | Decide(id: nat, approve: bool, valid: bool)
    | Collect(join: nat, expired: bool, lost: bool)
    | OtherPoll(id: nat, secret: nat, expired: bool)
    | RemoveMember(node: string)

  /** What the event asks of the host. */
  datatype Op =
    | Nothing
    | NewInvitation
    | Submission(token: nat, valid: bool, node: string)
    | Decision(id: nat, approve: bool, valid: bool)
    | Poll(id: nat, secret: nat, expired: bool)
    | Removal(node: string)

  function OpOf(w: World, e: Event): Op {
    match e
    case Invite => NewInvitation
    case Join(token, valid, _) => Submission(token, valid, w.me)
    case OtherJoin(token, valid, node) => Submission(token, valid, node)
    case Decide(id, approve, valid) => Decision(id, approve, valid)
    case Collect(join, expired, _) =>
      if join in w.joins && w.joins[join].state == Pending then Poll(w.joins[join].request, w.joins[join].secret, expired) else Nothing
    case OtherPoll(id, secret, expired) => Poll(id, secret, expired)
    case RemoveMember(node) => Removal(node)
  }

  /** The host's part. The credential of a submission is drawn by the submitting node. */
  function HostStep(t: Tables, op: Op, draw: nat): Tables {
    match op
    case Nothing => t
    case NewInvitation => t.(invitations := t.invitations[draw := Pending])
    case Submission(token, valid, node) => Submitted(t, token, valid, node, draw, draw + 1).0
    case Decision(id, approve, valid) => Decided(t, id, approve, valid, draw)
    case Poll(id, secret, expired) => Polled(t, id, secret, expired, draw).0
    case Removal(node) => t.(members := t.members - {node})
  }

  /** A join is recorded under its request's number if the receipt arrives; an arriving result settles it. */
  function JoinsAfter(w: World, e: Event): map<nat, Outbound> {
    match e
    case Join(token, valid, lost) =>
      var id := Submitted(w.host, token, valid, w.me, w.next, w.next + 1).1;
      if id.Some? && !lost then w.joins[id.value := Outbound(id.value, id.value + 1, w.next, Pending)] else w.joins
    case Collect(join, expired, lost) =>
      if lost || join !in w.joins || w.joins[join].state != Pending then w.joins
      else
        var o := w.joins[join];
        var result := Polled(w.host, o.request, o.secret, expired, w.next).1;
        if result.Grant? then w.joins[join := o.(state := Approved)]
        else if result == Answer(Rejected) || result == Answer(Expired) then w.joins[join := o.(state := result.state)]
        else w.joins
    case _ => w.joins
  }

  /** The row for the host: the credential collected, and the one submitted. */
  function PeerAfter(w: World, e: Event): Option<Member> {
    match e
    case Collect(join, expired, lost) =>
      if lost || join !in w.joins || w.joins[join].state != Pending then w.peer
      else
        var o := w.joins[join];
        var result := Polled(w.host, o.request, o.secret, expired, w.next).1;
        if result.Grant? then Some(Member(result.credential, o.inbound)) else w.peer
    case _ => w.peer
  }

  function Step(w: World, e: Event): World {
    World(HostStep(w.host, OpOf(w, e), w.next), w.me, JoinsAfter(w, e), PeerAfter(w, e), w.next + 3)
  }

  function Start(me: string): World {
    World(Tables(map[], map[], map[]), me, map[], None, 0)
  }

  function After(me: string, run: seq<Event>): World {
    if run == [] then Start(me) else Step(After(me, run[..|run| - 1]), run[|run| - 1])
  }

  // ---------------------------------------------------------------------------
  // What every step keeps

  /** Everything drawn so far is below `next`; a request has used up its invitation; it is consumed exactly when used. */
  predicate RequestOk(t: Tables, r: Request, next: nat) {
    && r.secret < next && r.credential < next && r.invitation < next
    && r.invitation in t.invitations && t.invitations[r.invitation] == Used
    && (r.state == Used <==> r.consumed) && r.state != Expired
  }

  /** No two requests share an invitation or a credential. */
  predicate Apart(r: Request, q: Request) {
    r.invitation != q.invitation && r.credential != q.credential
  }

  ghost predicate Sound(t: Tables, next: nat) {
    && (forall token :: token in t.invitations ==> token < next)
    && (forall id :: id in t.requests ==> id < next && RequestOk(t, t.requests[id], next))
    && (forall id, id' :: id in t.requests && id' in t.requests && id != id' ==> Apart(t.requests[id], t.requests[id']))
  }

  /** The fixed part of a request. */
  predicate SameRequest(r: Request, q: Request) {
    r.secret == q.secret && r.invitation == q.invitation && r.node == q.node && r.credential == q.credential
  }

  /** Used and rejected are final, for invitations and for requests, and requests keep their fixed part. */
  ghost predicate Later(t: Tables, u: Tables) {
    && (forall token :: token in t.invitations && t.invitations[token] == Used ==> token in u.invitations && u.invitations[token] == Used)
    && (forall id :: id in t.requests ==> id in u.requests && SameRequest(t.requests[id], u.requests[id]))
    && (forall id :: id in t.requests && t.requests[id].state in {Used, Rejected} ==> u.requests[id] == t.requests[id])
  }

  lemma SubmittedSound(t: Tables, token: nat, valid: bool, node: string, draw: nat)
    requires Sound(t, draw)
    ensures Sound(Submitted(t, token, valid, node, draw, draw + 1).0, draw + 3)
    ensures Later(t, Submitted(t, token, valid, node, draw, draw + 1).0)
  {
  }

  lemma DecidedSound(t: Tables, id: nat, approve: bool, valid: bool, draw: nat)
    requires Sound(t, draw)
    ensures Sound(Decided(t, id, approve, valid, draw), draw + 3)
    ensures Later(t, Decided(t, id, approve, valid, draw))
  {
  }

  lemma PolledSound(t: Tables, id: nat, secret: nat, expired: bool, draw: nat)
    requires Sound(t, draw)
    ensures Sound(Polled(t, id, secret, expired, draw).0, draw + 3)
    ensures Later(t, Polled(t, id, secret, expired, draw).0)
  {
  }

  lemma HostSound(t: Tables, op: Op, draw: nat)
    requires Sound(t, draw)
    ensures Sound(HostStep(t, op, draw), draw + 3) == true
    ensures Later(t, HostStep(t, op, draw)) == true
  {
    match op
    case Submission(token, valid, node) => SubmittedSound(t, token, valid, node, draw);
    case Decision(id, approve, valid) => DecidedSound(t, id, approve, valid, draw);
    case Poll(id, secret, expired) => PolledSound(t, id, secret, expired, draw);
    case _ =>
  }

  lemma StepSound(w: World, e: Event)
    requires Sound(w.host, w.next)
    ensures Sound(Step(w, e).host, Step(w, e).next) == true
    ensures Later(w.host, Step(w, e).host) == true
  {
    HostSound(w.host, OpOf(w, e), w.next);
  }

  /**
   In every run an invitation yields at most one request, no two requests share a credential,
   and an approved request is not yet consumed.
   */
  lemma {:induction false} RunSound(me: string, run: seq<Event>)
    ensures Sound(After(me, run).host, After(me, run).next)
  {
    if run != [] {
      RunSound(me, run[..|run| - 1]);
      StepSound(After(me, run[..|run| - 1]), run[|run| - 1]);
    }
  }

  /** In every run used and rejected stay so. */
  lemma {:induction false} Absorbing(me: string, run: seq<Event>, n: nat)
    requires n <= |run|
    ensures Later(After(me, run[..n]).host, After(me, run).host)
  {
    if n == |run| {
      assert run[..n] == run;
    } else {
      var init := run[..|run| - 1];
      assert init[..n] == run[..n];
      Absorbing(me, init, n);
      RunSound(me, init);
      StepSound(After(me, init), run[|run| - 1]);
    }
  }

  /** The step hands out the credential of the request. */
  predicate Grants(w: World, e: Event, id: nat) {
    match e
    case Collect(join, expired, lost) =>
      && join in w.joins && w.joins[join].state == Pending && w.joins[join].request == id
      && Polled(w.host, id, w.joins[join].secret, expired, w.next).1.Grant?
    case OtherPoll(i, secret, expired) => i == id && Polled(w.host, id, secret, expired, w.next).1.Grant?
    case _ => false
  }

  /** In every run a request yields at most one credential. */
  lemma OneCredential(me: string, run: seq<Event>, i: nat, j: nat, id: nat)
    requires i < j < |run| && Grants(After(me, run[..i]), run[i], id)
    ensures !Grants(After(me, run[..j]), run[j], id)
  {
    var w := After(me, run[..i]);
    assert run[..i + 1][..i] == run[..i];
    assert run[..j][..i + 1] == run[..i + 1];
    assert After(me, run[..i + 1]) == Step(w, run[i]);
    Absorbing(me, run[..j], i + 1);
  }

  lemma HostSecrets(t: Tables, op: Op, draw: nat)
    requires forall id :: id in t.requests ==> t.requests[id].secret == id + 1
    ensures forall id :: id in HostStep(t, op, draw).requests ==> HostStep(t, op, draw).requests[id].secret == id + 1
    ensures forall id :: id in HostStep(t, op, draw).requests && id !in t.requests ==> id == draw + 1 && op.Submission?
  {
  }

  lemma {:induction false} RunClock(me: string, run: seq<Event>)
    ensures After(me, run).next == 3 * |run|
  {
    if run != [] {
      RunClock(me, run[..|run| - 1]);
    }
  }

  /** In every run a request was submitted by the event its number comes from, and has the secret drawn with it. */
  lemma {:induction false} SecretsDrawn(me: string, run: seq<Event>)
    ensures forall id :: id in After(me, run).host.requests ==> After(me, run).host.requests[id].secret == id + 1
    ensures forall id :: id in After(me, run).host.requests ==>
              exists n :: 0 <= n < |run| && id == 3 * n + 1 && (run[n].Join? || run[n].OtherJoin?)
  {
    if run != [] {
      var init := run[..|run| - 1];
      var w := After(me, init);
      SecretsDrawn(me, init);
      RunClock(me, init);
      HostSecrets(w.host, OpOf(w, run[|run| - 1]), w.next);
      forall id | id in After(me, run).host.requests
        ensures exists n :: 0 <= n < |run| && id == 3 * n + 1 && (run[n].Join? || run[n].OtherJoin?)
      {
        if id in w.host.requests {
          var n :| 0 <= n < |init| && id == 3 * n + 1 && (init[n].Join? || init[n].OtherJoin?);
          assert run[n] == init[n];
        } else {
          assert id == 3 * (|run| - 1) + 1 && (run[|run| - 1].Join? || run[|run| - 1].OtherJoin?);
        }
      }
    }
  }

  /** In every run whoever is granted a credential presents the secret drawn when the request was submitted. */
  lemma GrantPresents(me: string, run: seq<Event>, e: Event, id: nat)
    requires Grants(After(me, run), e, id)
    ensures e.OtherPoll? ==> e.id == id && e.secret == id + 1
    ensures e.Collect? ==> e.join in After(me, run).joins && After(me, run).joins[e.join].secret == id + 1
    ensures exists n :: 0 <= n < |run| && id == 3 * n + 1 && (run[n].Join? || run[n].OtherJoin?)
  {
    SecretsDrawn(me, run);
  }

  // ---------------------------------------------------------------------------
  // A completed pairing

  predicate Approves(t: Tables, e: Event, node: string) {
    && e.Decide? && e.approve && e.valid
    && e.id in t.requests && t.requests[e.id].state == Pending && t.requests[e.id].node == node
  }

  /** The request of the node that was approved last. */
  function LastApproved(me: string, run: seq<Event>, node: string): Option<nat> {
    if run == [] then None
    else
      var init, e := run[..|run| - 1], run[|run| - 1];
      if Approves(After(me, init).host, e, node) then Some(e.id) else LastApproved(me, init, node)
  }

  predicate Backed(t: Tables, node: string, id: Option<nat>) {
    && id.Some? && id.value in t.requests && t.requests[id.value].node == node
    && t.requests[id.value].state in {Approved, Used}
    && (node in t.members ==> t.members[node].outbound == t.requests[id.value].credential)
  }

  predicate ApprovesOp(t: Tables, op: Op, node: string) {
    && op.Decision? && op.approve && op.valid
    && op.id in t.requests && t.requests[op.id].state == Pending && t.requests[op.id].node == node
  }

  lemma HostBacked(t: Tables, op: Op, draw: nat, node: string, id: Option<nat>)
    requires Sound(t, draw) && Backed(t, node, id) && !ApprovesOp(t, op, node)
    ensures Backed(HostStep(t, op, draw), node, id) == true
  {
  }

  lemma NoNewMember(t: Tables, op: Op, draw: nat, node: string)
    requires node !in t.members && node in HostStep(t, op, draw).members
    ensures ApprovesOp(t, op, node)
  {
  }

  /** A step that does not approve a request of the node keeps what backs its member row. */
  lemma StepBacked(w: World, e: Event, node: string, id: Option<nat>)
    requires Sound(w.host, w.next) && (node in w.host.members ==> Backed(w.host, node, id))
    requires node in Step(w, e).host.members && !Approves(w.host, e, node)
    ensures Backed(Step(w, e).host, node, id) == true
  {
    assert ApprovesOp(w.host, OpOf(w, e), node) == Approves(w.host, e, node);
    if node !in w.host.members {
      NoNewMember(w.host, OpOf(w, e), w.next, node);
    }
    HostBacked(w.host, OpOf(w, e), w.next, node, id);
  }

  lemma StepApproves(w: World, e: Event, node: string)
    requires Approves(w.host, e, node)
    ensures Backed(Step(w, e).host, node, Some(e.id))
  {
  }

  /** In every run a member row holds the credential of the request of that node approved last. */
  lemma {:induction false} MembersBacked(me: string, run: seq<Event>, node: string)
    requires node in After(me, run).host.members
    ensures Backed(After(me, run).host, node, LastApproved(me, run, node))
  {
    var init, e := run[..|run| - 1], run[|run| - 1];
    var w := After(me, init);
    RunSound(me, init);
    if node in w.host.members {
      MembersBacked(me, init, node);
    }
    if Approves(w.host, e, node) {
      StepApproves(w, e, node);
    } else {
      StepBacked(w, e, node, LastApproved(me, init, node));
    }
  }

  /** A recorded join is one of the host's requests, made with the credential the joining node remembers. */
  predicate JoinOk(t: Tables, me: string, j: nat, o: Outbound) {
    o.request == j && j in t.requests && t.requests[j].node == me && t.requests[j].credential == o.inbound
  }

  ghost predicate Recorded(w: World) {
    forall j :: j in w.joins ==> JoinOk(w.host, w.me, j, w.joins[j])
  }

  lemma JoinStays(t: Tables, u: Tables, me: string, j: nat, o: Outbound, o': Outbound)
    requires JoinOk(t, me, j, o) && Later(t, u) && o' == o.(state := o'.state)
    ensures JoinOk(u, me, j, o') == true
  {
  }

  /** A join that appears is the submission just made; any other changes at most its state. */
  lemma JoinOrigin(w: World, e: Event, j: nat)
    requires j in JoinsAfter(w, e)
    ensures (j in w.joins && JoinsAfter(w, e)[j] == w.joins[j].(state := JoinsAfter(w, e)[j].state))
            || JoinOk(HostStep(w.host, OpOf(w, e), w.next), w.me, j, JoinsAfter(w, e)[j])
  {
  }

  lemma StepRecorded(w: World, e: Event)
    requires Sound(w.host, w.next) && Recorded(w)
    ensures Recorded(Step(w, e)) && Step(w, e).me == w.me
  {
    StepSound(w, e);
    forall j | j in Step(w, e).joins ensures JoinOk(Step(w, e).host, w.me, j, Step(w, e).joins[j]) == true {
      JoinOrigin(w, e, j);
      if j in w.joins && JoinsAfter(w, e)[j] == w.joins[j].(state := JoinsAfter(w, e)[j].state) {
        JoinStays(w.host, Step(w, e).host, w.me, j, w.joins[j], JoinsAfter(w, e)[j]);
      }
    }
  }

  lemma {:induction false} RunRecorded(me: string, run: seq<Event>)
    ensures Recorded(After(me, run)) && After(me, run).me == me
  {
    if run != [] {
      RunRecorded(me, run[..|run| - 1]);
      RunSound(me, run[..|run| - 1]);
      StepRecorded(After(me, run[..|run| - 1]), run[|run| - 1]);
    }
  }

  predicate Completes(w: World, e: Event) {
    && e.Collect? && e.join in w.joins && w.joins[e.join].state == Pending
    && Step(w, e).joins[e.join].state == Approved
  }

  /** Each side's outbound secret is the other's inbound one. */
  predicate Matched(w: World) {
    && w.peer.Some? && w.me in w.host.members
    && w.peer.value.outbound == w.host.members[w.me].inbound
    && w.host.members[w.me].outbound == w.peer.value.inbound
  }

  /**
   When a pairing completes, the two nodes hold matching secrets if and only if the member
   row is still there and no other request of the node was approved after this one.
   */
  lemma CompletedMatches(me: string, run: seq<Event>, e: Event)
    requires Completes(After(me, run), e)
    ensures Matched(Step(After(me, run), e)) <==>
            me in After(me, run).host.members && LastApproved(me, run, me) == Some(e.join)
  {
    var w := After(me, run);
    RunSound(me, run);
    RunRecorded(me, run);
    if me in w.host.members {
      MembersBacked(me, run, me);
      var last := LastApproved(me, run, me).value;
      assert last != e.join ==> Apart(w.host.requests[last], w.host.requests[e.join]);
    }
  }

  /** In particular when it is the only approved request of the node. */
  lemma OnlyPairingMatches(me: string, run: seq<Event>, e: Event)
    requires Completes(After(me, run), e) && me in After(me, run).host.members
    requires forall id :: id in After(me, run).host.requests ==>
               (After(me, run).host.requests[id].node == me && After(me, run).host.requests[id].state in {Approved, Used} ==> id == e.join)
    ensures Matched(Step(After(me, run), e))
  {
    MembersBacked(me, run, me);
    CompletedMatches(me, run, e);
  }

  // ---------------------------------------------------------------------------
  // A grant whose reply is lost

  /** The join waits for a result that the host has already handed out. */
  predicate Waiting(w: World, join: nat) {
    join in w.joins && w.joins[join].state == Pending
    && w.joins[join].request in w.host.requests && w.host.requests[w.joins[join].request].state == Used
  }

  /** A grant whose reply is lost leaves its join waiting; one whose reply arrives completes it. */
  lemma GrantOutcome(me: string, run: seq<Event>, e: Event)
    requires e.Collect? && Grants(After(me, run), e, e.join)
    ensures Waiting(Step(After(me, run), e), e.join) <==> e.lost
    ensures Completes(After(me, run), e) <==> !e.lost
  {
    RunRecorded(me, run);
  }

  lemma WaitingStays(w: World, e: Event, join: nat)
    requires Sound(w.host, w.next) && Recorded(w) && Waiting(w, join)
    ensures Waiting(Step(w, e), join) && Step(w, e).joins[join] == w.joins[join]
  {
    HostSound(w.host, OpOf(w, e), w.next);
    JoinUntouched(w, e, join);
  }

  lemma JoinUntouched(w: World, e: Event, join: nat)
    requires Sound(w.host, w.next) && Recorded(w) && Waiting(w, join)
    ensures join in JoinsAfter(w, e) && JoinsAfter(w, e)[join] == w.joins[join]
  {
  }

  /** In every run a waiting join waits for ever and never completes. */
  lemma {:induction false} WaitingForever(me: string, run: seq<Event>, n: nat, join: nat)
    requires n <= |run| && Waiting(After(me, run[..n]), join)
    ensures Waiting(After(me, run), join)
    ensures forall m :: n <= m < |run| ==> !(run[m].Collect? && run[m].join == join && Completes(After(me, run[..m]), run[m]))
  {
    if n == |run| {
      assert run[..n] == run;
    } else {
      var init, e := run[..|run| - 1], run[|run| - 1];
      assert init[..n] == run[..n];
      WaitingForever(me, init, n, join);
      RunSound(me, init);
      RunRecorded(me, init);
      WaitingStays(After(me, init), e, join);
      forall m | n <= m < |run| ensures !(run[m].Collect? && run[m].join == join && Completes(After(me, run[..m]), run[m])) {
        if m < |init| {
          assert init[..m] == run[..m] && init[m] == run[m];
        } else {
          assert run[..m] == init;
        }
      }
    }
  }
}
