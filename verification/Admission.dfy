/** Admission tickets and device identities: claim, unbind, re-key and replenish. */
module Admission {
  import opened Common
  import opened Arithmetic
  import opened Ledger
  import opened Database
  import opened Sums

  type Identities = map<InstallationId, Identity>
  type Tickets = map<string, Ticket>

  datatype Admitted = Claimed | AlreadyKnown | DeviceConflict | TicketInvalid | TicketExhausted

  datatype Rekeyed = Rekeyed(previous: InstallationId) | Bound | Cooldown | Conflict

  // ----- identities -----

  /** An empty fingerprint stands for none; UNIQUE columns ignore it. */
  predicate Owns(identities: Identities, j: InstallationId, fingerprint: Fingerprint) {
    j in identities && fingerprint != "" && identities[j].fingerprint == fingerprint
  }

  /** PRIMARY KEY by construction, UNIQUE(public_key), UNIQUE(device_fingerprint). */
  predicate IdentitiesOk(identities: Identities) {
    forall j, k :: j in identities && k in identities && j != k ==>
      && identities[j].publicKey != identities[k].publicKey
      && (identities[j].fingerprint == "" || identities[j].fingerprint != identities[k].fingerprint)
  }

  /** INSERT, or on a known installation refresh last_seen and fill in a missing fingerprint; None when a UNIQUE column refuses. */
  function Upsert(identities: Identities, i: InstallationId, publicKey: string, fingerprint: Fingerprint, now: int): Option<Identities> {
    var known := i in identities;
    var key := if known then identities[i].publicKey else publicKey;
    var bound := if known && identities[i].fingerprint != "" then identities[i].fingerprint else fingerprint;
    if exists j :: j in identities && j != i && (identities[j].publicKey == publicKey || (bound != "" && identities[j].fingerprint == bound))
    then None
    else Some(identities[i := Identity(key, bound, now)])
  }

  lemma UpsertKeepsIdentities(identities: Identities, i: InstallationId, publicKey: string, fingerprint: Fingerprint, now: int)
    requires IdentitiesOk(identities)
    ensures var r := Upsert(identities, i, publicKey, fingerprint, now); r.Some? ==> IdentitiesOk(r.value)
  {
  }

  /** No installation has the device or the key. */
  ghost predicate Free(identities: Identities, publicKey: string, fingerprint: Fingerprint) {
    (forall j :: !Owns(identities, j, fingerprint)) && forall j :: j in identities ==> identities[j].publicKey != publicKey
  }

  /** A new installation is refused exactly when its key or its fingerprint is taken. */
  lemma UpsertNew(identities: Identities, i: InstallationId, publicKey: string, fingerprint: Fingerprint, now: int)
    requires i !in identities && fingerprint != ""
    ensures var r := Upsert(identities, i, publicKey, fingerprint, now);
            && (r.None? <==> !Free(identities, publicKey, fingerprint))
            && (r.Some? ==> r.value == identities[i := Identity(publicKey, fingerprint, now)])
  {
    forall j | j in identities ensures Owns(identities, j, fingerprint) <==> identities[j].fingerprint == fingerprint {
    }
  }

  ghost predicate Unowned(identities: Identities, fingerprint: Fingerprint) {
    forall j :: !Owns(identities, j, fingerprint)
  }

  lemma UnownedByOthers(identities: Identities, i: InstallationId, publicKey: string, fingerprint: Fingerprint)
    requires i !in identities
    ensures Unowned(identities, fingerprint) <==> !(exists j :: j in identities && Owns(identities, j, fingerprint) && j != i)
    ensures Free(identities, publicKey, fingerprint) ==> Unowned(identities, fingerprint)
  {
  }

  /** The key belongs to an installation other than these two. */
  ghost predicate KeyElsewhere(identities: Identities, i: InstallationId, previous: InstallationId, publicKey: string) {
    exists j :: j in identities && j != i && j != previous && identities[j].publicKey == publicKey
  }

  predicate Waited(identities: Identities, j: InstallationId, cooldown: int, now: int) {
    j in identities && (cooldown > 0 ==> now - identities[j].lastSeenAt >= cooldown)
  }

  /** What it takes for an installation to lose its device to another one. */
  ghost predicate MayTakeOver(identities: Identities, previous: InstallationId, i: InstallationId, publicKey: string,
                              fingerprint: Fingerprint, cooldown: int, now: int) {
    && previous != i && Owns(identities, previous, fingerprint) && Waited(identities, previous, cooldown, now)
    && !KeyElsewhere(identities, i, previous, publicKey)
  }

  /** A known installation keeps its key, and its device when it has one. */
  function Bind(identities: Identities, i: InstallationId, publicKey: string, fingerprint: Fingerprint, now: int): Identity {
    if i in identities
    then Identity(identities[i].publicKey, if identities[i].fingerprint != "" then identities[i].fingerprint else fingerprint, now)
    else Identity(publicKey, fingerprint, now)
  }

  lemma BindKeeps(identities: Identities, i: InstallationId, publicKey: string, fingerprint: Fingerprint, now: int)
    ensures var b := Bind(identities, i, publicKey, fingerprint, now);
            && b.lastSeenAt == now
            && (i !in identities ==> b.publicKey == publicKey && b.fingerprint == fingerprint)
            && (i in identities ==>
                  && b.publicKey == identities[i].publicKey && b.fingerprint in {identities[i].fingerprint, fingerprint}
                  && (identities[i].fingerprint != "" ==> b.fingerprint == identities[i].fingerprint))
  {
  }

  lemma OneOwner(identities: Identities, fingerprint: Fingerprint)
    requires IdentitiesOk(identities)
    ensures forall j, k :: Owns(identities, j, fingerprint) && Owns(identities, k, fingerprint) ==> j == k
  {
  }

  lemma HasWaited(identities: Identities, j: InstallationId, cooldown: int, now: int)
    requires j in identities
    ensures Waited(identities, j, cooldown, now) <==> !(cooldown > 0 && now - identities[j].lastSeenAt < cooldown)
  {
  }

  /** When nobody else owns the device, only the key can refuse. */
  lemma UpsertUnowned(identities: Identities, i: InstallationId, previous: InstallationId, publicKey: string, fingerprint: Fingerprint, now: int)
    requires IdentitiesOk(identities) && fingerprint != "" && (previous == i || previous !in identities)
    requires forall j :: j != i ==> !Owns(identities, j, fingerprint)
    ensures var r := Upsert(identities, i, publicKey, fingerprint, now);
            && (r.None? <==> KeyElsewhere(identities, i, previous, publicKey))
            && (r.Some? ==> r.value == identities[i := Bind(identities, i, publicKey, fingerprint, now)])
  {
    forall j | j in identities && j != i ensures identities[j].fingerprint != fingerprint {
      assert !Owns(identities, j, fingerprint);
    }
  }

  lemma UpsertWithout(identities: Identities, i: InstallationId, previous: InstallationId, publicKey: string, fingerprint: Fingerprint, now: int)
    requires IdentitiesOk(identities) && Owns(identities, previous, fingerprint) && previous != i
    ensures var r := Upsert(identities - {previous}, i, publicKey, fingerprint, now);
            && (r.None? <==> KeyElsewhere(identities, i, previous, publicKey))
            && (r.Some? ==> r.value == (identities - {previous})[i := Bind(identities, i, publicKey, fingerprint, now)])
  {
    var left := identities - {previous};
    RemovingKeeps(identities, previous);
    OneOwner(identities, fingerprint);
    forall j ensures Owns(left, j, fingerprint) ==> Owns(identities, j, fingerprint) && j != previous {
    }
    UpsertUnowned(left, i, previous, publicKey, fingerprint, now);
    assert KeyElsewhere(left, i, previous, publicKey) <==> KeyElsewhere(identities, i, previous, publicKey) by {
      forall j ensures j in left && j != i && j != previous <==> j in identities && j != i && j != previous {
      }
    }
  }

  // ----- tickets -----

  /** The CHECK constraints, and no ticket still active once it is used up. */
  predicate TicketOk(t: Ticket) {
    t.maxClaims > 0 && t.claimedCount <= t.maxClaims && (t.status == Active ==> t.claimedCount < t.maxClaims)
  }

  predicate TicketsOk(tickets: Tickets) {
    forall s :: s in tickets ==> TicketOk(tickets[s])
  }

  function ExpireTickets(tickets: Tickets, now: int): Tickets {
    map s | s in tickets ::
      if tickets[s].status == Active && tickets[s].expiresAt <= now then tickets[s].(status := Expired) else tickets[s]
  }

  /** Active afterwards is exactly what was active and has time left; whatever changes has become expired, and nothing else of it. */
  lemma ExpiresExactly(tickets: Tickets, now: int)
    ensures var after := ExpireTickets(tickets, now);
            && after.Keys == tickets.Keys
            && forall s :: s in tickets ==>
                 && after[s] == tickets[s].(status := after[s].status)
                 && (after[s].status == Active <==> tickets[s].status == Active && tickets[s].expiresAt > now)
                 && (after[s].status == tickets[s].status || after[s].status == Expired)
  {
  }

  /** The WHERE clause of the consuming statement. */
  predicate Consumable(tickets: Tickets, secret: string, now: int) {
    && secret in tickets && tickets[secret].status == Active && tickets[secret].expiresAt > now
    && tickets[secret].claimedCount < tickets[secret].maxClaims
  }

  /** Expiring takes nothing from a ticket that can still be consumed. */
  lemma ExpiringSpares(tickets: Tickets, secret: string, now: int)
    ensures Consumable(ExpireTickets(tickets, now), secret, now) <==> Consumable(tickets, secret, now)
    ensures Consumable(tickets, secret, now) ==> ExpireTickets(tickets, now)[secret] == tickets[secret]
  {
  }

  function Consumed(t: Ticket): Ticket {
    t.(claimedCount := t.claimedCount + 1, status := if t.claimedCount + 1 >= t.maxClaims then Exhausted else Active)
  }

  function ClaimedOf(tickets: Tickets): string -> nat { (s: string) => if s in tickets then tickets[s].claimedCount else 0 }

  function LeftOf(tickets: Tickets, now: int): string -> nat {
    (s: string) => if s in tickets && tickets[s].status == Active && tickets[s].expiresAt > now && tickets[s].claimedCount <= tickets[s].maxClaims
                   then tickets[s].maxClaims - tickets[s].claimedCount else 0
  }

  /** Claims consumed over all tickets, and claims still to be had. */
  ghost function ClaimedTotal(tickets: Tickets): nat { Sum(tickets.Keys, ClaimedOf(tickets)) }

  ghost function RemainingClaims(tickets: Tickets, now: int): nat { Sum(tickets.Keys, LeftOf(tickets, now)) }

  lemma ExpiringKeeps(tickets: Tickets, now: int)
    requires TicketsOk(tickets)
    ensures var after := ExpireTickets(tickets, now);
            && TicketsOk(after) && ClaimedTotal(after) == ClaimedTotal(tickets) && RemainingClaims(after, now) == RemainingClaims(tickets, now)
            && after.Keys == tickets.Keys
  {
    var after := ExpireTickets(tickets, now);
    assert after.Keys == tickets.Keys;
    SumSame(tickets.Keys, ClaimedOf(tickets), ClaimedOf(after));
    SumSame(tickets.Keys, LeftOf(tickets, now), LeftOf(after, now));
  }

  lemma ConsumingCounts(tickets: Tickets, secret: string, now: int)
    requires TicketsOk(tickets) && Consumable(tickets, secret, now)
    ensures var after := tickets[secret := Consumed(tickets[secret])];
            && TicketsOk(after) && ClaimedTotal(after) == ClaimedTotal(tickets) + 1 && RemainingClaims(after, now) + 1 == RemainingClaims(tickets, now)
  {
    var after := tickets[secret := Consumed(tickets[secret])];
    assert after.Keys == tickets.Keys;
    SumChange(tickets.Keys, secret, ClaimedOf(tickets), ClaimedOf(after));
    SumChange(tickets.Keys, secret, LeftOf(tickets, now), LeftOf(after, now));
  }

  lemma MintingAdds(tickets: Tickets, secret: string, t: Ticket, now: int)
    requires TicketsOk(tickets) && secret !in tickets && t.maxClaims > 0 && t.claimedCount == 0 && t.status == Active && t.expiresAt > now
    ensures var after := tickets[secret := t];
            && TicketsOk(after) && ClaimedTotal(after) == ClaimedTotal(tickets)
            && RemainingClaims(after, now) == RemainingClaims(tickets, now) + t.maxClaims
  {
    var after := tickets[secret := t];
    assert after.Keys == tickets.Keys + {secret};
    SumAdd(tickets.Keys, secret, ClaimedOf(after));
    SumSame(tickets.Keys, ClaimedOf(after), ClaimedOf(tickets));
    SumAdd(tickets.Keys, secret, LeftOf(after, now));
    SumSame(tickets.Keys, LeftOf(after, now), LeftOf(tickets, now));
  }

  // ----- the desk -----

  /** The part of the service that admits devices. `admitted` counts the installations admitted by a ticket, ever. */
  class AdmissionDesk {
    var identities: Identities
    var tickets: Tickets
    ghost var admitted: nat

    ghost predicate Valid()
      reads this
    {
      IdentitiesOk(identities) && TicketsOk(tickets) && ClaimedTotal(tickets) == admitted
    }

    constructor ()
      ensures Valid() && identities == map[] && tickets == map[] && admitted == 0
    {
      identities, tickets, admitted := map[], map[], 0;
    }

    /** Consume a ticket and bind the identity in one transaction; whatever refuses it leaves no trace. */
    method ClaimAdmission(i: InstallationId, publicKey: string, fingerprint: Fingerprint, secret: string, now: int) returns (r: Admitted)
      requires Valid() && fingerprint != ""
      modifies this
      ensures Valid()
      ensures r.Claimed? <==>
                i !in old(identities) && Free(old(identities), publicKey, fingerprint) && Consumable(old(tickets), secret, now)
      ensures r.AlreadyKnown? <==> i in old(identities)
      ensures r.TicketInvalid? <==>
                i !in old(identities) && Unowned(old(identities), fingerprint) && secret !in old(tickets)
      ensures r.TicketExhausted? <==>
                && i !in old(identities) && Unowned(old(identities), fingerprint) && secret in old(tickets)
                && !Consumable(old(tickets), secret, now)
      ensures r.DeviceConflict? <==>
                && i !in old(identities)
                && (!Unowned(old(identities), fingerprint)
                    || (Consumable(old(tickets), secret, now) && !Free(old(identities), publicKey, fingerprint)))
      ensures r.Claimed? ==>
                && admitted == old(admitted) + 1
                && identities == old(identities)[i := Identity(publicKey, fingerprint, now)]
                && tickets == ExpireTickets(old(tickets), now)[secret := Consumed(old(tickets)[secret])]
      ensures !r.Claimed? ==> identities == old(identities) && tickets == old(tickets) && admitted == old(admitted)
    {
      hide TicketsOk, ClaimedTotal, IdentitiesOk, Upsert, ExpireTickets, Consumed, Owns, Free, Unowned;
      ExpiringSpares(tickets, secret, now);
      if i in identities { return AlreadyKnown; }
      UnownedByOthers(identities, i, publicKey, fingerprint);
      UpsertNew(identities, i, publicKey, fingerprint, now);
      if exists j :: j in identities && Owns(identities, j, fingerprint) && j != i { return DeviceConflict; }
      var saved := tickets;
      ExpiringKeeps(tickets, now);
      tickets := ExpireTickets(tickets, now);
      if secret !in tickets {
        tickets := saved;
        return TicketInvalid;
      }
      var ticket := tickets[secret];
      if ticket.status != Active || ticket.expiresAt <= now || ticket.claimedCount >= ticket.maxClaims {
        tickets := saved;
        return TicketExhausted;
      }
      ConsumingCounts(tickets, secret, now);
      tickets := tickets[secret := Consumed(ticket)];
      UpsertKeepsIdentities(identities, i, publicKey, fingerprint, now);
      var bound := Upsert(identities, i, publicKey, fingerprint, now);
      if bound.None? {
        tickets := saved;
        return DeviceConflict;
      }
      identities := bound.value;
      admitted := admitted + 1;
      r := Claimed;
    }

    /** Deleting an identity releases its fingerprint and gives no claim back. */
    method UnbindIdentity(i: InstallationId) returns (unbound: bool)
      requires Valid()
      modifies this`identities
      ensures Valid() && (unbound <==> i in old(identities)) && identities == old(identities) - {i}
      ensures forall fingerprint :: !Owns(identities, i, fingerprint)
    {
      unbound := i in identities;
      identities := identities - {i};
    }

    /** A device takes its binding over to a new key once the old one has been idle for the cooldown. */
    method RekeyIdentity(i: InstallationId, publicKey: string, fingerprint: Fingerprint, cooldown: int, now: int) returns (r: Rekeyed)
      requires Valid() && fingerprint != ""
      modifies this`identities
      ensures Valid()
      ensures r.Bound? <==> Owns(old(identities), i, fingerprint)
                            || (Unowned(old(identities), fingerprint) && !KeyElsewhere(old(identities), i, i, publicKey))
      ensures r.Cooldown? <==> exists j :: j != i && Owns(old(identities), j, fingerprint) && !Waited(old(identities), j, cooldown, now)
      ensures r.Rekeyed? <==> exists j :: MayTakeOver(old(identities), j, i, publicKey, fingerprint, cooldown, now)
      ensures r.Conflict? <==>
                || (Unowned(old(identities), fingerprint) && KeyElsewhere(old(identities), i, i, publicKey))
                || exists j :: j != i && Owns(old(identities), j, fingerprint) && Waited(old(identities), j, cooldown, now)
                            && KeyElsewhere(old(identities), i, j, publicKey)
      ensures r.Rekeyed? ==>
                && MayTakeOver(old(identities), r.previous, i, publicKey, fingerprint, cooldown, now)
                && identities == (old(identities) - {r.previous})[i := Bind(old(identities), i, publicKey, fingerprint, now)]
      ensures r.Cooldown? || r.Conflict? ==> identities == old(identities)
      ensures r.Bound? ==> identities == old(identities)
                           || identities == old(identities)[i := Bind(old(identities), i, publicKey, fingerprint, now)]
      ensures r.Rekeyed? || identities != old(identities) ==>
                && i in identities && identities[i].lastSeenAt == now
                && (i !in old(identities) ==> identities[i].publicKey == publicKey && identities[i].fingerprint == fingerprint)
                && (i in old(identities) ==>
                      && identities[i].publicKey == old(identities)[i].publicKey
                      && identities[i].fingerprint in {old(identities)[i].fingerprint, fingerprint}
                      && (old(identities)[i].fingerprint != "" ==> identities[i].fingerprint == old(identities)[i].fingerprint))
      ensures r.Bound? ==> i in identities && forall j :: Owns(old(identities), j, fingerprint) ==> j == i
    {
      hide IdentitiesOk, TicketsOk, ClaimedTotal, Upsert, KeyElsewhere, Waited, Bind;
      BindKeeps(identities, i, publicKey, fingerprint, now);
      OneOwner(identities, fingerprint);
      if !(exists j :: j in identities && Owns(identities, j, fingerprint)) {
        UpsertKeepsIdentities(identities, i, publicKey, fingerprint, now);
        UpsertUnowned(identities, i, i, publicKey, fingerprint, now);
        var bound := Upsert(identities, i, publicKey, fingerprint, now);
        if bound.None? { return Conflict; }
        identities := bound.value;
        return Bound;
      }
      var previous :| previous in identities && Owns(identities, previous, fingerprint);
      if previous == i { return Bound; }
      HasWaited(identities, previous, cooldown, now);
      if cooldown > 0 && now - identities[previous].lastSeenAt < cooldown { return Cooldown; }
      var left := identities - {previous};
      RemovingKeeps(identities, previous);
      UpsertKeepsIdentities(left, i, publicKey, fingerprint, now);
      UpsertWithout(identities, i, previous, publicKey, fingerprint, now);
      var bound := Upsert(left, i, publicKey, fingerprint, now);
      if bound.None? { return Conflict; }
      assert MayTakeOver(identities, previous, i, publicKey, fingerprint, cooldown, now);
      identities := bound.value;
      r := Rekeyed(previous);
    }

    /** Issue tickets under fresh secrets. */
    method MintAdmissionTickets(secrets: seq<string>, maxClaims: nat, expiresAt: int, now: int)
      requires Valid() && maxClaims > 0 && expiresAt > now
      requires forall a, b :: 0 <= a < b < |secrets| ==> secrets[a] != secrets[b]
      requires forall s :: s in secrets ==> s !in tickets
      modifies this`tickets
      ensures Valid() && RemainingClaims(tickets, now) == RemainingClaims(old(tickets), now) + |secrets| * maxClaims
      ensures forall s :: s in old(tickets) ==> s in tickets && tickets[s] == old(tickets)[s]
      ensures forall s :: s in tickets && s !in old(tickets) ==> s in secrets && tickets[s] == Ticket(maxClaims, 0, Active, expiresAt)
    {
      hide TicketsOk, ClaimedTotal, RemainingClaims, IdentitiesOk;
      for k := 0 to |secrets|
        invariant Valid() && RemainingClaims(tickets, now) == RemainingClaims(old(tickets), now) + k * maxClaims
        invariant forall s :: s in old(tickets) ==> s in tickets && tickets[s] == old(tickets)[s]
        invariant forall s :: s in tickets && s !in old(tickets) ==> s in secrets[..k] && tickets[s] == Ticket(maxClaims, 0, Active, expiresAt)
      {
        var ticket := Ticket(maxClaims, 0, Active, expiresAt);
        MintingAdds(tickets, secrets[k], ticket, now);
        tickets := tickets[secrets[k] := ticket];
        assert (k + 1) * maxClaims == k * maxClaims + maxClaims;
      }
    }

    /** Top the inventory up to its target, revoking nothing. `remaining` is the inventory query's answer. */
    method ReplenishAdmissionInventory(target: nat, maxClaims: nat, expiresAt: int, secrets: seq<string>, remaining: nat, now: int)
      requires Valid() && maxClaims > 0 && expiresAt > now && remaining == RemainingClaims(tickets, now)
      requires target > remaining ==> |secrets| == target - remaining
      requires forall a, b :: 0 <= a < b < |secrets| ==> secrets[a] != secrets[b]
      requires forall s :: s in secrets ==> s !in tickets
      modifies this`tickets
      ensures Valid() && RemainingClaims(tickets, now) >= target && RemainingClaims(tickets, now) >= remaining
      ensures target <= remaining ==> tickets == ExpireTickets(old(tickets), now)
      ensures forall s :: s in old(tickets) ==> s in tickets && tickets[s] == ExpireTickets(old(tickets), now)[s]
      ensures forall s :: s in tickets && s !in old(tickets) ==> s in secrets && tickets[s] == Ticket(maxClaims, 0, Active, expiresAt)
    {
      hide TicketsOk, ClaimedTotal, RemainingClaims, IdentitiesOk, ExpireTickets;
      ExpiringKeeps(tickets, now);
      tickets := ExpireTickets(tickets, now);
      if target <= remaining { return; }
      MintAdmissionTickets(secrets, maxClaims, expiresAt, now);
      ProductGrows(|secrets|, 1, maxClaims);
    }
  }

  lemma RemovingKeeps(identities: Identities, j: InstallationId)
    requires IdentitiesOk(identities)
    ensures IdentitiesOk(identities - {j})
  {
  }
}
