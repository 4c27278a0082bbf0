/** The state-changing request handlers of the pot game, over a database holding the
    user and contribution tables. Each handler commits as a single atomic update and
    answers with a `Response` in place of an HTTP status and body. */
module App {
  import opened Models

  /** What a handler answers. */
  datatype Response =
    | UserRow(id: nat, user: User)                         // 201 from a registration
    | ContributionRow(id: nat, contribution: Contribution) // 201 from a contribution
    | HitReport(hit: bool)                                 // 200 from a hit
    | PaidReport(paid: bool)                               // 200 (true) or 400 (false) from `end`
    | BadRequest                                           // 400
    | NotFound                                             // 404
    | ServerError                                          // an exception escaped the handler

  /** Outcome of settling the contributions. */
  datatype Settlement = Settled | NoPotHolder

  class Database {
    var users: seq<User>
    var contributions: seq<Contribution>
    /** The administrator's key that `end` compares against. */
    const adminKey: string

    /** The game's invariant: exactly one user holds the pot once there is any user, no
        two users share an email, and every contribution is of the fixed amount. */
    ghost predicate Valid()
      reads this
    {
      PotInvariant(users) && DistinctEmails(users) && AllOfAmount(contributions)
    }

    /** All scores plus everything still owed to the pot holder. */
    ghost function Ledger(): int
      reads this
    {
      TotalScore(users) + UnpaidTotal(contributions)
    }

    constructor (key: string)
      ensures Valid()
      ensures users == [] && contributions == [] && adminKey == key
    {
      users, contributions := [], [];
      adminKey := key;
    }

    /** `Contribution.pay`: marks contribution `i` paid and tells whether it was unpaid;
        on a paid contribution it changes nothing, so paying twice is paying once. */
    method Pay(i: nat) returns (changed: bool)
      requires i < |contributions|
      modifies this
      ensures changed == !old(contributions[i].paid)
      ensures |contributions| == |old(contributions)| && contributions[i].paid
      ensures contributions == old(contributions)[i := contributions[i]]
      ensures contributions[i] == old(contributions[i]).(paid := true)
      ensures !changed ==> contributions == old(contributions)
      ensures users == old(users)
      ensures old(Valid()) ==> Valid()
    {
      if !contributions[i].paid {
        contributions := contributions[i := contributions[i].(paid := true)];
        changed := true;
      } else {
        changed := false;
      }
    }

    /** `Contribution.pay_contributions`: pays every unpaid contribution and credits its
        amount to the pot holder; the contributors are not debited. Without a pot holder
        the source fails before committing anything, so nothing changes. */
    method PayContributions() returns (r: Settlement)
      requires Valid()
      modifies this
      ensures Valid()
      ensures r == NoPotHolder <==> old(users) == []
      ensures r == NoPotHolder ==> users == old(users) && contributions == old(contributions)
      ensures r == Settled ==>
        var h := PotHolder(old(users)).value;
        h < |old(users)| && old(users)[h].hasPot &&
        contributions == PayAll(old(contributions)) &&
        users == Credit(old(users), h, UnpaidTotal(old(contributions)))
      ensures Follows(old(contributions), contributions)
      ensures Ledger() == old(Ledger())
    {
      var holder := PotHolder(users);
      NoPotHolderIffEmpty(users);
      if holder.None? {
        return NoPotHolder;
      }
      var h := holder.value;
      ghost var U0, C0 := users, contributions;
      var i := 0;
      while i < |contributions|
        invariant 0 <= i <= |contributions| == |C0|
        invariant forall k :: 0 <= k < i ==> contributions[k] == C0[k].(paid := true)
        invariant forall k :: i <= k < |C0| ==> contributions[k] == C0[k]
        invariant users == Credit(U0, h, UnpaidTotal(C0[..i]))
      {
        assert C0[..i + 1][..i] == C0[..i];
        if !contributions[i].paid {
          var changed := Pay(i);
          if changed {
            users := users[h := users[h].(score := users[h].score + contributions[i].amount)];
          }
        }
        i := i + 1;
      }
      assert C0[..i] == C0;
      assert contributions == PayAll(C0);
      CreditKeepsUsersInvariant(U0, h, UnpaidTotal(C0));
      SettlementConserves(U0, C0, h);
      return Settled;
    }

    /** The POST branch of the `users` handler: registers `email`, or answers with the
        user already registered under it; a request without an email is a bad request. */
    method Register(email: Option<string>) returns (r: Response)
      requires Valid()
      modifies this
      ensures Valid()
      ensures contributions == old(contributions)
      ensures email.None? ==> r == BadRequest && users == old(users)
      ensures email.Some? && FindByEmail(old(users), email.value).Some? ==>
        var k := FindByEmail(old(users), email.value).value;
        users == old(users) && r == UserRow(IdOf(k), users[k])
      ensures email.Some? && FindByEmail(old(users), email.value).None? ==>
        users == old(users) + [NewUser(old(users), email.value)] &&
        r == UserRow(|users|, users[|users| - 1])
      ensures r.UserRow? ==> 1 <= r.id <= |users| && users[r.id - 1] == r.user && r.user.email == email.value
      ensures Ledger() == old(Ledger())
    {
      if email.None? {
        return BadRequest;
      }
      var found := FindByEmail(users, email.value);
      if found.None? {
        RegisterKeepsPotInvariant(users, email.value);
        RegisterKeepsEmailsDistinct(users, email.value);
        TotalScoreAppend(users, NewUser(users, email.value));
        users := users + [NewUser(users, email.value)];
        found := Some(|users| - 1);
      }
      r := UserRow(IdOf(found.value), users[found.value]);
    }

    /** The POST branch of the `contributions` handler: with a truthy `user` field it
        records an unpaid contribution of the fixed amount for that user id (which is not
        checked against the user table); otherwise it answers not-found. A user id the
        driver cannot bind makes the insert fail at commit: a server error, no change. */
    method Contribute(user: Option<int>) returns (r: Response)
      requires Valid()
      modifies this
      ensures Valid()
      ensures users == old(users)
      ensures user.Some? && user.value != 0 && Int64(user.value) ==>
        contributions == old(contributions) + [NewContribution(user.value)] &&
        r == ContributionRow(|contributions|, NewContribution(user.value))
      ensures user.Some? && user.value != 0 && !Int64(user.value) ==>
        r == ServerError && contributions == old(contributions)
      ensures !(user.Some? && user.value != 0) ==>
        r == NotFound && contributions == old(contributions)
      ensures Follows(old(contributions), contributions)
      ensures Ledger() == old(Ledger()) + (if r.ContributionRow? then AMOUNT else 0)
    {
      if user.Some? && user.value != 0 {
        if !Int64(user.value) {
          return ServerError;
        }
        var c := NewContribution(user.value);
        UnpaidTotalAppend(contributions, c);
        contributions := contributions + [c];
        r := ContributionRow(|contributions|, c);
      } else {
        r := NotFound;
      }
    }

    /** The `hit` handler: when both the hitter `id` and the `target` are users, records
        a contribution for the hitter, moves the pot to the hitter if the target held it,
        and reports whether the hitter now holds the pot; otherwise answers not-found.
        An id the driver cannot bind makes its lookup raise: a server error, no change. */
    method Hit(id: Option<int>, target: Option<int>) returns (r: Response)
      requires Valid()
      modifies this
      ensures Valid()
      ensures r.ServerError? <==>
        (id.Some? && !Int64(id.value)) || (target.Some? && !Int64(target.value))
      ensures !r.ServerError? ==>
        (r.HitReport? <==> Lookup(old(users), id).Some? && Lookup(old(users), target).Some?)
      ensures r.HitReport? || r.NotFound? || r.ServerError?
      ensures !r.HitReport? ==> users == old(users) && contributions == old(contributions)
      ensures r.HitReport? ==>
        var u, t := Lookup(old(users), id).value, Lookup(old(users), target).value;
        contributions == old(contributions) + [NewContribution(IdOf(u))] &&
        users == Transfer(old(users), u, t) &&
        r.hit == users[u].hasPot &&
        r.hit == (old(users)[u].hasPot || old(users)[t].hasPot)
      ensures Follows(old(contributions), contributions)
      ensures Ledger() == old(Ledger()) + (if r.HitReport? then AMOUNT else 0)
    {
      if id.Some? && !Int64(id.value) {
        return ServerError;
      }
      var hitter := Lookup(users, id);
      if target.Some? && !Int64(target.value) {
        return ServerError;
      }
      var victim := Lookup(users, target);
      if hitter.Some? && victim.Some? {
        var u, t := hitter.value, victim.value;
        ghost var U0 := users;
        var c := NewContribution(IdOf(u));
        UnpaidTotalAppend(contributions, c);
        contributions := contributions + [c];
        if users[t].hasPot {
          users := users[t := users[t].(hasPot := false)];
          users := users[u := users[u].(hasPot := true)];
        }
        assert users == Transfer(U0, u, t);
        TransferKeepsPotInvariant(U0, u, t);
        TransferKeepsScores(U0, u, t);
        r := HitReport(users[u].hasPot);
      } else {
        r := NotFound;
      }
    }

    /** The `end` handler: with the administrator's key, settles the contributions;
        with any other key, refuses and changes nothing. A settlement that finds no pot
        holder fails as an error. */
    method End(key: string) returns (r: Response)
      requires Valid()
      modifies this
      ensures Valid()
      ensures key != adminKey ==>
        r == PaidReport(false) && users == old(users) && contributions == old(contributions)
      ensures key == adminKey && old(users) != [] ==>
        var h := PotHolder(old(users)).value;
        r == PaidReport(true) && h < |old(users)| && old(users)[h].hasPot &&
        contributions == PayAll(old(contributions)) &&
        users == Credit(old(users), h, UnpaidTotal(old(contributions)))
      ensures key == adminKey && old(users) == [] ==>
        r == ServerError && users == old(users) && contributions == old(contributions)
      ensures Follows(old(contributions), contributions)
      ensures Ledger() == old(Ledger())
    {
      if key == adminKey {
        var s := PayContributions();
        r := if s == Settled then PaidReport(true) else ServerError;
      } else {
        r := PaidReport(false);
      }
    }
  }
}
