/**
 Fenced scheduler claims: any number of workers claim, renew and complete units of work
 through conditional writes to one table. A run is any sequence of those calls, so every
 interleaving of every set of workers is one.
 */
module Claims {
  import opened Basics

  /** Stored times are compared by their text; only that they are totally ordered matters. */
  type Time = int

  datatype Key = Key(kind: string, site: int)

  /** An owner of "" means unclaimed; a lease of `None` is the empty text, below every time. */
  datatype Row = Row(nextDue: Time, owner: string, generation: nat, lease: Option<Time>)

  type Table = map<Key, Row>

  datatype Call =
    | Claim(key: Key, owner: string, now: Time, until: Time)
    | Renew(key: Key, owner: string, generation: nat, until: Time)
    | Complete(key: Key, owner: string, generation: nat, nextDue: Time)

  predicate Expired(lease: Option<Time>, now: Time) {
    lease.None? || lease.value <= now
  }

  /** The condition under which the call writes the table. */
  predicate Effective(t: Table, c: Call) {
    match c
    case Claim(key, owner, now, _) =>
      key !in t || (t[key].nextDue <= now && (t[key].owner == "" || Expired(t[key].lease, now)))
    case Renew(key, owner, generation, _) => key in t && t[key].owner == owner && t[key].generation == generation
    case Complete(key, owner, generation, _) => key in t && t[key].owner == owner && t[key].generation == generation
  }

  function Write(t: Table, c: Call): Table
    requires Effective(t, c)
  {
    match c
    case Claim(key, owner, now, until) =>
      t[key := if key !in t then Row(now, owner, 1, Some(until))
               else t[key].(owner := owner, generation := t[key].generation + 1, lease := Some(until))]
    case Renew(key, _, _, until) => t[key := t[key].(lease := Some(until))]
    case Complete(key, _, _, nextDue) => t[key := t[key].(nextDue := nextDue, owner := "", lease := None)]
  }

  function Step(t: Table, c: Call): Table {
    if Effective(t, c) then Write(t, c) else t
  }

  // ---------------------------------------------------------------------------
  // The store

  class ClaimStore {
    var rows: Table

    constructor ()
      ensures rows == map[]
    {
      rows := map[];
    }

    /** Claims a due, free or expired unit; the generation is the fencing token. */
    method ClaimDue(key: Key, owner: string, now: Time, until: Time) returns (generation: nat, ok: bool)
      modifies this
      ensures ok == Effective(old(rows), Claim(key, owner, now, until))
      ensures rows == Step(old(rows), Claim(key, owner, now, until))
      // on the row: a new unit is granted, a known one when it is due and unowned or its lease has passed
      ensures ok <==> key !in old(rows) || (old(rows)[key].nextDue <= now
                        && (old(rows)[key].owner == "" || old(rows)[key].lease == None || old(rows)[key].lease.value <= now))
      ensures key !in old(rows) ==> generation == 1 && rows == old(rows)[key := Row(now, owner, 1, Some(until))]
      ensures ok && key in old(rows) ==>
                generation == old(rows)[key].generation + 1
                && rows == old(rows)[key := Row(old(rows)[key].nextDue, owner, generation, Some(until))]
      ensures !ok ==> rows == old(rows)
    {
      if key !in rows {
        rows := rows[key := Row(now, owner, 1, Some(until))];
        return 1, true;
      }
      var r := rows[key];
      if r.nextDue <= now && (r.owner == "" || Expired(r.lease, now)) {
        rows := rows[key := Row(r.nextDue, owner, r.generation + 1, Some(until))];
        return r.generation + 1, true;
      }
      return 0, false;
    }

    /** Extends the lease if the caller still owns the claim. */
    method RenewClaim(key: Key, owner: string, generation: nat, until: Time) returns (ok: bool)
      modifies this
      ensures ok == Effective(old(rows), Renew(key, owner, generation, until))
      ensures rows == Step(old(rows), Renew(key, owner, generation, until))
      ensures ok <==> key in old(rows) && old(rows)[key].owner == owner && old(rows)[key].generation == generation
      ensures ok ==> rows == old(rows)[key := Row(old(rows)[key].nextDue, owner, generation, Some(until))]
      ensures !ok ==> rows == old(rows)
    {
      ok := key in rows && rows[key].owner == owner && rows[key].generation == generation;
      if ok {
        rows := rows[key := rows[key].(lease := Some(until))];
      }
    }

    /** Releases the claim and sets the next due time if the caller still owns it. */
    method CompleteClaim(key: Key, owner: string, generation: nat, nextDue: Time)
      modifies this
      ensures rows == Step(old(rows), Complete(key, owner, generation, nextDue))
      ensures rows == if key in old(rows) && old(rows)[key].owner == owner && old(rows)[key].generation == generation
                      then old(rows)[key := Row(nextDue, "", generation, None)] else old(rows)
    {
      if key in rows && rows[key].owner == owner && rows[key].generation == generation {
        rows := rows[key := Row(nextDue, "", generation, None)];
      }
    }
  }

  // ---------------------------------------------------------------------------
  // Runs

  /** Worker identities are never empty. */
  predicate NamedOwners(run: seq<Call>) {
    forall i :: 0 <= i < |run| ==> run[i].owner != ""
  }

  function At(run: seq<Call>, n: nat): Table
    requires n <= |run|
  {
    if n == 0 then map[] else Step(At(run, n - 1), run[n - 1])
  }

  /** Call `i` of the run takes effect on key `k`. */
  predicate Acts(run: seq<Call>, i: nat, k: Key) {
    i < |run| && run[i].key == k && Effective(At(run, i), run[i])
  }

  predicate Grants(run: seq<Call>, i: nat, k: Key) {
    Acts(run, i, k) && run[i].Claim?
  }

  predicate Completes(run: seq<Call>, i: nat, k: Key) {
    Acts(run, i, k) && run[i].Complete?
  }

  /** The generation handed out by a granted claim. */
  function Token(run: seq<Call>, i: nat): nat
    requires i < |run| && Grants(run, i, run[i].key)
  {
    At(run, i + 1)[run[i].key].generation
  }

  function Generation(t: Table, k: Key): nat {
    if k in t then t[k].generation else 0
  }

  lemma {:induction false} GenerationsNeverFall(run: seq<Call>, m: nat, n: nat, k: Key)
    requires m <= n <= |run|
    ensures Generation(At(run, m), k) <= Generation(At(run, n), k)
    decreases n
  {
    if m < n {
      GenerationsNeverFall(run, m, n - 1, k);
    }
  }

  /** Each (key, generation) is granted at most once: later grants carry larger tokens. */
  lemma GrantedOnce(run: seq<Call>, i: nat, j: nat, k: Key)
    requires i < j && Grants(run, i, k) && Grants(run, j, k)
    ensures Token(run, i) < Token(run, j)
  {
    GenerationsNeverFall(run, i + 1, j, k);
  }

  // ---------------------------------------------------------------------------
  // Who may act

  /** The row's holder got its token at call `i`, and nobody was granted or completed since. */
  ghost predicate HeldSince(run: seq<Call>, i: nat, n: nat, k: Key)
    requires n <= |run|
  {
    && i < n && Grants(run, i, k)
    && k in At(run, n)
    && At(run, n)[k].owner == run[i].owner && At(run, n)[k].generation == Token(run, i)
    && (forall m :: i < m < n ==> !Grants(run, m, k) && !Completes(run, m, k))
  }

  lemma {:induction false} HolderHasGrant(run: seq<Call>, n: nat, k: Key) returns (i: nat)
    requires NamedOwners(run) && n <= |run| && k in At(run, n) && At(run, n)[k].owner != ""
    ensures HeldSince(run, i, n, k)
  {
    var c := run[n - 1];
    if Grants(run, n - 1, k) {
      i := n - 1;
    } else {
      i := HolderHasGrant(run, n - 1, k);
    }
  }

  /**
   Fencing: a renewal or completion takes effect only for the worker whose grant is the
   latest for that key and has not been completed.
   */
  lemma Fencing(run: seq<Call>, j: nat, k: Key) returns (i: nat)
    requires NamedOwners(run) && Acts(run, j, k) && !run[j].Claim?
    ensures i < j && Grants(run, i, k)
    ensures run[i].owner == run[j].owner && Token(run, i) == run[j].generation
    ensures forall m :: i < m < j ==> !Grants(run, m, k) && !Completes(run, m, k)
  {
    i := HolderHasGrant(run, j, k);
  }

  /** Each (key, generation) is completed at most once. */
  lemma CompletedOnce(run: seq<Call>, i: nat, j: nat, k: Key)
    requires NamedOwners(run) && i < j && Completes(run, i, k) && Completes(run, j, k)
    ensures run[i].generation < run[j].generation
  {
    var g := Fencing(run, j, k);
    GenerationsNeverFall(run, i + 1, g, k);
  }

  /** A worker whose token is not the row's, or whose owner is not, can never act again. */
  ghost predicate Stale(t: Table, k: Key, owner: string, generation: nat) {
    k in t && (t[k].generation > generation || (t[k].generation == generation && t[k].owner != owner))
  }

  lemma {:induction false} StaleForever(run: seq<Call>, m: nat, n: nat, k: Key, owner: string, generation: nat)
    requires NamedOwners(run) && m <= n <= |run| && owner != "" && Stale(At(run, m), k, owner, generation)
    ensures Stale(At(run, n), k, owner, generation)
    decreases n
  {
    if m < n {
      StaleForever(run, m, n - 1, k, owner, generation);
    }
  }

  /** Once a granted worker's renewal is refused, no later renewal or completion of it takes effect. */
  lemma RefusedForever(run: seq<Call>, i: nat, m: nat, j: nat, k: Key)
    requires NamedOwners(run) && i < m < j && Grants(run, i, k)
    requires m < |run| && run[m].key == k && run[m].Renew? && !Acts(run, m, k)
    requires run[m].owner == run[i].owner && run[m].generation == Token(run, i)
    requires j < |run| && run[j].key == k && !run[j].Claim?
    requires run[j].owner == run[i].owner && run[j].generation == Token(run, i)
    ensures !Acts(run, j, k) && At(run, j + 1) == At(run, j)
  {
    GenerationsNeverFall(run, i + 1, m, k);
    KeysStay(run, i + 1, m, k);
    StaleForever(run, m, j, k, run[i].owner, Token(run, i));
  }

  lemma {:induction false} KeysStay(run: seq<Call>, m: nat, n: nat, k: Key)
    requires m <= n <= |run| && k in At(run, m)
    ensures k in At(run, n)
    decreases n
  {
    if m < n {
      KeysStay(run, m, n - 1, k);
    }
  }

  // ---------------------------------------------------------------------------
  // Leases and due times, read off the history

  /** The lease written by the last grant or renewal that took effect. */
  function LastLease(run: seq<Call>, n: nat, k: Key): Option<Time>
    requires n <= |run|
  {
    if n == 0 then None
    else if Acts(run, n - 1, k) && !run[n - 1].Complete? then Some(run[n - 1].until)
    else LastLease(run, n - 1, k)
  }

  /** The due time set by the last completion that took effect, at first the time of the first claim. */
  function LastDue(run: seq<Call>, n: nat, k: Key): Option<Time>
    requires n <= |run|
  {
    if n == 0 then None
    else if Completes(run, n - 1, k) then Some(run[n - 1].nextDue)
    else if Grants(run, n - 1, k) && k !in At(run, n - 1) then Some(run[n - 1].now)
    else LastDue(run, n - 1, k)
  }

  lemma {:induction false} RowFromHistory(run: seq<Call>, n: nat, k: Key)
    requires NamedOwners(run) && n <= |run|
    ensures k !in At(run, n) ==> LastDue(run, n, k) == None
    ensures k in At(run, n) ==> LastDue(run, n, k) == Some(At(run, n)[k].nextDue)
    ensures k in At(run, n) && At(run, n)[k].owner != "" ==>
              At(run, n)[k].lease.Some? && At(run, n)[k].lease == LastLease(run, n, k)
  {
    if n > 0 {
      RowFromHistory(run, n - 1, k);
    }
  }

  /** A claim of a unit that is unowned or whose lease has passed is granted once it is due, and so is the first claim of a unit. */
  lemma DueGranted(run: seq<Call>, j: nat, k: Key)
    requires j < |run| && run[j].Claim? && run[j].key == k
    requires k in At(run, j) ==> At(run, j)[k].nextDue <= run[j].now
                                 && (At(run, j)[k].owner == "" || At(run, j)[k].lease == None || At(run, j)[k].lease.value <= run[j].now)
    ensures Grants(run, j, k) && k in At(run, j + 1)
    ensures At(run, j + 1)[k].owner == run[j].owner && At(run, j + 1)[k].lease == Some(run[j].until)
    ensures Token(run, j) == if k in At(run, j) then At(run, j)[k].generation + 1 else 1
  {
  }

  /**
   A grant while another holds the claim happens only at or after the lease that was last
   written, and no grant happens before the due time that was last set.
   */
  lemma TakeoverAfterLease(run: seq<Call>, j: nat, k: Key)
    requires NamedOwners(run) && Grants(run, j, k)
    ensures k in At(run, j) ==> LastDue(run, j, k).Some? && LastDue(run, j, k).value <= run[j].now
    ensures k in At(run, j) && At(run, j)[k].owner != "" ==>
              LastLease(run, j, k).Some? && LastLease(run, j, k).value <= run[j].now
  {
    RowFromHistory(run, j, k);
  }
}
